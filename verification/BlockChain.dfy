// The canonical chain markers and the transaction lookup of core/blockchain.go, kept up
// to date incrementally by reorg and writeHeadBlock.
module BlockChain {
  import opened Base
  import opened ChainStore

  // The table w holds exactly the transactions of blocks from.. of c, at their numbers.
  ghost predicate TableOf(store: Store, c: seq<Hash>, from: nat, w: map<TxHash, nat>) {
    && (forall k :: 0 <= k < |c| ==> c[k] in store)
    && (forall k, t :: from <= k < |c| && t in store[c[k]].txs ==> t in w && w[t] == k)
    && (forall t :: t in w ==> from <= w[t] < |c| && t in store[c[w[t]]].txs)
  }

  // Every transaction of the chain is looked up to the number of its block, nothing else is.
  ghost predicate LookupFor(store: Store, c: seq<Hash>, lookup: map<TxHash, nat>) {
    TableOf(store, c, 0, lookup)
  }

  // No transaction sits in two blocks of the chain.
  ghost predicate NoDuplicates(store: Store, c: seq<Hash>) {
    && (forall k :: 0 <= k < |c| ==> c[k] in store)
    && (forall j, k, t :: 0 <= j < |c| && 0 <= k < |c| && t in store[c[j]].txs && t in store[c[k]].txs ==> j == k)
  }

  // Children carry the number after their parent's.
  ghost predicate Linked(store: Store) {
    forall h :: h in store && store[h].parent in store ==> store[h].number == store[store[h].parent].number + 1
  }

  // All blocks there are: hashes determine blocks, and no chain repeats a transaction.
  ghost predicate TreeOk(tree: Store) {
    && Linked(tree)
    && (forall h :: h in tree ==>
          var c := Ancestry(tree, h, tree[h].number);
          c.Some? ==> IsChain(tree, c.value) && NoDuplicates(tree, c.value))
  }

  ghost predicate Contains(tree: Store, store: Store) {
    forall h :: h in store ==> h in tree && tree[h] == store[h]
  }

  datatype Fork = Fork(common: Hash, number: nat, oldChain: seq<Hash>, newChain: seq<Hash>)

  datatype ForkError = InvalidOldChain | InvalidNewChain

  datatype ForkResult = Found(fork: Fork) | Invalid(error: ForkError)

  // The two ancestries meet: same block at number 0.
  ghost predicate Related(store: Store, a: Hash, b: Hash)
    requires a in store && b in store
  {
    var x, y := Ancestry(store, a, store[a].number), Ancestry(store, b, store[b].number);
    x.Some? && y.Some? && |x.value| > 0 && |y.value| > 0 && x.value[0] == y.value[0]
  }

  // `path` was left behind on the way from block h down to block cur at number n.
  ghost predicate Walked(store: Store, h: Hash, cur: Hash, n: nat, path: seq<Hash>)
    requires h in store
  {
    && GetHeader(store, cur, n).Some? && n + |path| == store[h].number
    && Ancestry(store, h, store[h].number) == Below(Ancestry(store, cur, n), path)
    && (forall k :: 0 <= k < |path| ==> path[k] in store && store[path[k]].number == store[h].number - k)
  }

  lemma WalkOn(store: Store, h: Hash, cur: Hash, n: nat, path: seq<Hash>)
    requires h in store && Walked(store, h, cur, n, path) && n > 0
    ensures GetHeader(store, store[cur].parent, n - 1).Some? ==> Walked(store, h, store[cur].parent, n - 1, path + [cur])
    ensures GetHeader(store, store[cur].parent, n - 1).None? ==> Ancestry(store, h, store[h].number).None?
  {
    WalkStep(store, cur, n, path);
  }

  // Follows the parents of h down to number n.
  method Descend(store: Store, h: Hash, n: nat) returns (ok: bool, cur: Hash, path: seq<Hash>)
    requires h in store && n <= store[h].number
    ensures ok ==> Walked(store, h, cur, n, path)
    ensures !ok ==> Ancestry(store, h, store[h].number).None?
  {
    var m: nat := store[h].number;
    cur, path := h, [];
    WalkStart(store, h, m);
    while m != n
      invariant n <= m && Walked(store, h, cur, m, path)
      decreases m
    {
      WalkOn(store, h, cur, m, path);
      path := path + [cur];
      if GetHeader(store, store[cur].parent, m - 1).None? {
        return false, cur, path;
      }
      cur, m := store[cur].parent, m - 1;
    }
    ok := true;
  }

  // Step one of reorg: level both heads, then walk down in lockstep to the highest
  // common ancestor.
  method FindFork(store: Store, oldHead: Hash, newHead: Hash) returns (r: ForkResult)
    requires oldHead in store && newHead in store
    ensures r.Invalid? ==> !Related(store, oldHead, newHead)
    ensures r.Found? ==>
              var f := r.fork;
              && Walked(store, oldHead, f.common, f.number, f.oldChain)
              && Walked(store, newHead, f.common, f.number, f.newChain)
              && (f.oldChain != [] && f.newChain != [] ==> f.oldChain[|f.oldChain| - 1] != f.newChain[|f.newChain| - 1])
  {
    var n: nat := Min(store[oldHead].number, store[newHead].number);
    var ok, a, oldChain := Descend(store, oldHead, n);
    if !ok {
      return Invalid(InvalidOldChain);
    }
    var ok', b, newChain := Descend(store, newHead, n);
    if !ok' {
      return Invalid(InvalidNewChain);
    }
    while a != b
      invariant Walked(store, oldHead, a, n, oldChain) && Walked(store, newHead, b, n, newChain)
      invariant oldChain != [] && newChain != [] ==> oldChain[|oldChain| - 1] != newChain[|newChain| - 1]
      decreases n
    {
      hide Walked, Related;
      if n == 0 {
        Unrelated(store, oldHead, newHead, a, b, oldChain, newChain);
        return Invalid(InvalidOldChain);
      }
      WalkedHere(store, oldHead, a, n, oldChain);
      WalkedHere(store, newHead, b, n, newChain);
      WalkOn(store, oldHead, a, n, oldChain);
      WalkOn(store, newHead, b, n, newChain);
      oldChain, newChain := oldChain + [a], newChain + [b];
      if GetHeader(store, store[a].parent, n - 1).None? {
        MissingUnrelated(store, oldHead, newHead);
        return Invalid(InvalidOldChain);
      }
      if GetHeader(store, store[b].parent, n - 1).None? {
        MissingUnrelated(store, oldHead, newHead);
        return Invalid(InvalidNewChain);
      }
      a, b, n := store[a].parent, store[b].parent, n - 1;
    }
    r := Found(Fork(a, n, oldChain, newChain));
  }

  lemma WalkedHere(store: Store, h: Hash, cur: Hash, n: nat, path: seq<Hash>)
    requires h in store && Walked(store, h, cur, n, path)
    ensures cur in store
  {
  }

  lemma MissingUnrelated(store: Store, a: Hash, b: Hash)
    requires a in store && b in store
    requires Ancestry(store, a, store[a].number).None? || Ancestry(store, b, store[b].number).None?
    ensures !Related(store, a, b)
  {
  }

  lemma Unrelated(store: Store, oldHead: Hash, newHead: Hash, a: Hash, b: Hash, p: seq<Hash>, q: seq<Hash>)
    requires oldHead in store && newHead in store && a != b
    requires Walked(store, oldHead, a, 0, p) && Walked(store, newHead, b, 0, q)
    ensures !Related(store, oldHead, newHead)
  {
    assert ([a] + Reversed(p))[0] == a && ([b] + Reversed(q))[0] == b;
  }

  // ----- The lookup table under writes and deletions.

  function WriteLookups(lookup: map<TxHash, nat>, txs: seq<TxHash>, n: nat): (r: map<TxHash, nat>) {
    lookup + (map t | t in txs :: n)
  }

  ghost function TxsOf(store: Store, hs: seq<Hash>): set<TxHash> {
    set h, t | h in hs && h in store && t in store[h].txs :: t
  }

  // What writing blocks from.. of chain c one after the other puts into the table.
  ghost function Written(store: Store, c: seq<Hash>, from: nat): map<TxHash, nat>
    requires forall h :: h in c ==> h in store
  {
    if |c| <= from then map[]
    else WriteLookups(Written(store, c[..|c| - 1], from), store[c[|c| - 1]].txs, |c| - 1)
  }

  lemma FreshTx(store: Store, c: seq<Hash>, h: Hash, k: nat, t: TxHash)
    requires NoDuplicates(store, c + [h]) && k < |c| && c[k] in store && h in store && t in store[c[k]].txs
    ensures t !in store[h].txs
  {
    var d := c + [h];
    assert d[k] == c[k] && d[|c|] == h;
  }

  lemma TableExtend(store: Store, c: seq<Hash>, from: nat, w: map<TxHash, nat>, h: Hash)
    requires TableOf(store, c, from, w) && from <= |c| && h in store && NoDuplicates(store, c + [h])
    ensures TableOf(store, c + [h], from, WriteLookups(w, store[h].txs, |c|))
  {
    hide NoDuplicates;
    var d, v := c + [h], WriteLookups(w, store[h].txs, |c|);
    forall k, t | from <= k < |d| && t in store[d[k]].txs ensures t in v && v[t] == k {
      if k < |c| {
        FreshTx(store, c, h, k, t);
        assert t in w;
      }
    }
  }

  lemma {:induction false} WrittenFacts(store: Store, c: seq<Hash>, from: nat)
    requires from <= |c| && (forall h :: h in c ==> h in store) && NoDuplicates(store, c)
    ensures TableOf(store, c, from, Written(store, c, from))
    decreases |c|
  {
    hide TableOf, NoDuplicates;
    if |c| > from {
      var d := c[..|c| - 1];
      assert c == d + [c[|c| - 1]];
      ShorterNoDuplicates(store, d, c[|c| - 1]);
      WrittenFacts(store, d, from);
      TableExtend(store, d, from, Written(store, d, from), c[|c| - 1]);
    } else {
      EmptyTable(store, c);
    }
  }

  lemma EmptyTable(store: Store, c: seq<Hash>)
    requires forall h :: h in c ==> h in store
    ensures TableOf(store, c, |c|, map[])
  {
  }

  lemma ShorterNoDuplicates(store: Store, c: seq<Hash>, h: Hash)
    requires NoDuplicates(store, c + [h])
    ensures NoDuplicates(store, c)
  {
    assert forall k :: 0 <= k < |c| ==> (c + [h])[k] == c[k];
  }

  lemma TailTxs(store: Store, c: seq<Hash>, from: nat, t: TxHash)
    requires from <= |c| && forall k :: 0 <= k < |c| ==> c[k] in store
    ensures t in TxsOf(store, c[from..]) <==> exists k :: from <= k < |c| && t in store[c[k]].txs
  {
    if k :| from <= k < |c| && t in store[c[k]].txs {
      assert c[from..][k - from] == c[k];
    }
    if t in TxsOf(store, c[from..]) {
      var h :| h in c[from..] && h in store && t in store[h].txs;
      var j :| 0 <= j < |c[from..]| && c[from..][j] == h;
      assert c[from + j] == h;
    }
  }

  // The table after a reorg from chain a to chain m that share their first `shared` blocks.
  lemma ReorgLookup(store: Store, a: seq<Hash>, m: seq<Hash>, shared: nat, lookup: map<TxHash, nat>, gone: set<TxHash>)
    requires shared <= |a| && shared <= |m| && a[..shared] == m[..shared]
    requires LookupFor(store, a, lookup) && NoDuplicates(store, m) && forall h :: h in m ==> h in store
    requires gone == TxsOf(store, a[shared..]) - TxsOf(store, m[shared..])
    ensures LookupFor(store, m, (lookup + Written(store, m, shared)) - gone)
  {
    hide Written, TxsOf, TableOf, NoDuplicates;
    var w := Written(store, m, shared);
    var r := (lookup + w) - gone;
    WrittenFacts(store, m, shared);
    forall k, t | 0 <= k < |m| && t in store[m[k]].txs ensures t in r && r[t] == k {
      Survives(store, a, m, shared, lookup, w, k, t);
    }
    forall t | t in r ensures r[t] < |m| && t in store[m[r[t]]].txs {
      Justified(store, a, m, shared, lookup, w, t);
    }
    AssembleTable(store, m, r);
  }

  lemma AssembleTable(store: Store, c: seq<Hash>, r: map<TxHash, nat>)
    requires forall k :: 0 <= k < |c| ==> c[k] in store
    requires forall k, t :: 0 <= k < |c| && t in store[c[k]].txs ==> t in r && r[t] == k
    requires forall t :: t in r ==> r[t] < |c| && t in store[c[r[t]]].txs
    ensures LookupFor(store, c, r)
  {
  }

  lemma Survives(store: Store, a: seq<Hash>, m: seq<Hash>, shared: nat, lookup: map<TxHash, nat>, w: map<TxHash, nat>,
                 k: nat, t: TxHash)
    requires k < |m| && shared <= |a| && shared <= |m| && a[..shared] == m[..shared]
    requires LookupFor(store, a, lookup) && TableOf(store, m, shared, w) && NoDuplicates(store, m)
    requires t in store[m[k]].txs
    ensures t in lookup + w && (lookup + w)[t] == k
    ensures t !in TxsOf(store, a[shared..]) - TxsOf(store, m[shared..])
  {
    TailTxs(store, a, shared, t);
    TailTxs(store, m, shared, t);
    if k < shared {
      assert a[..shared][k] == m[..shared][k];
      assert t in store[a[k]].txs && lookup[t] == k;
    }
  }

  lemma Justified(store: Store, a: seq<Hash>, m: seq<Hash>, shared: nat, lookup: map<TxHash, nat>, w: map<TxHash, nat>,
                  t: TxHash)
    requires shared <= |a| && shared <= |m| && a[..shared] == m[..shared]
    requires LookupFor(store, a, lookup) && TableOf(store, m, shared, w)
    requires t in lookup + w && t !in TxsOf(store, a[shared..]) - TxsOf(store, m[shared..])
    ensures (lookup + w)[t] < |m| && t in store[m[(lookup + w)[t]]].txs
  {
    TailTxs(store, a, shared, t);
    TailTxs(store, m, shared, t);
    if t !in w {
      assert lookup[t] < shared;
      assert a[..shared][lookup[t]] == m[..shared][lookup[t]];
    }
  }

  // Writing the new head completes the table.
  lemma HeadLookup(store: Store, c: seq<Hash>, m: nat, lookup: map<TxHash, nat>)
    requires c != [] && |c| - 1 <= m <= |c| && LookupFor(store, c[..m], lookup)
    requires NoDuplicates(store, c) && forall h :: h in c ==> h in store
    ensures LookupFor(store, c, WriteLookups(lookup, store[c[|c| - 1]].txs, |c| - 1))
  {
    hide NoDuplicates, TableOf, WriteLookups;
    var h, n := c[|c| - 1], |c| - 1;
    if m == |c| {
      assert c[..m] == c;
      WriteAgain(store, c, lookup, n);
    } else {
      assert c == c[..n] + [h];
      TableExtend(store, c[..n], 0, lookup, h);
    }
  }

  lemma WriteAgain(store: Store, c: seq<Hash>, lookup: map<TxHash, nat>, k: nat)
    requires LookupFor(store, c, lookup) && k < |c| && c[k] in store
    ensures WriteLookups(lookup, store[c[k]].txs, k) == lookup
  {
  }

  // ----- Chains of the store as chains of the tree.

  lemma StoreChain(tree: Store, store: Store, h: Hash)
    requires TreeOk(tree) && Contains(tree, store) && h in store
    requires Ancestry(store, h, store[h].number).Some?
    ensures var c := Ancestry(store, h, store[h].number).value;
            IsChain(store, c) && NoDuplicates(store, c) && |c| == store[h].number + 1 && c[|c| - 1] == h
  {
    AncestryIsChain(store, h, store[h].number);
    AncestryMonotone(store, tree, h, store[h].number);
    var c := Ancestry(store, h, store[h].number).value;
    assert NoDuplicates(tree, c);
    assert forall k :: 0 <= k < |c| ==> tree[c[k]] == store[c[k]];
  }

  // What FindFork returned, in terms of the two chains: `shared` blocks in common, then
  // the old and the new branch.
  lemma ForkChains(store: Store, oldHead: Hash, newHead: Hash, f: Fork, a: seq<Hash>)
    requires oldHead in store && newHead in store
    requires Walked(store, oldHead, f.common, f.number, f.oldChain)
    requires Walked(store, newHead, f.common, f.number, f.newChain)
    requires Ancestry(store, oldHead, store[oldHead].number) == Some(a)
    ensures f.number + 1 <= |a| && a[f.number + 1..] == Reversed(f.oldChain)
    ensures Ancestry(store, newHead, store[newHead].number) == Some(a[..f.number + 1] + Reversed(f.newChain))
    ensures Related(store, oldHead, newHead)
  {
    var p := Ancestry(store, f.common, f.number);
    AncestryIsChain(store, f.common, f.number);
    assert a == p.value + Reversed(f.oldChain);
    assert a[..f.number + 1] == p.value;
    var b := p.value + Reversed(f.newChain);
    assert a[0] == p.value[0] == b[0];
  }

  lemma MeetBelow(store: Store, a: seq<Hash>, b: seq<Hash>, n: nat, k: nat)
    requires IsChain(store, a) && IsChain(store, b) && n <= k < |a| && k < |b| && a[k] == b[k]
    ensures a[n] == b[n]
  {
    ChainsMeet(store, a, b, k);
    assert a[..k + 1][n] == b[..k + 1][n];
  }

  // FindFork stops at the highest common ancestor.
  lemma ForkIsHighest(store: Store, oldHead: Hash, newHead: Hash, f: Fork, a: seq<Hash>, b: seq<Hash>, k: nat)
    requires oldHead in store && newHead in store
    requires Walked(store, oldHead, f.common, f.number, f.oldChain)
    requires Walked(store, newHead, f.common, f.number, f.newChain)
    requires f.oldChain != [] && f.newChain != [] ==> f.oldChain[|f.oldChain| - 1] != f.newChain[|f.newChain| - 1]
    requires Ancestry(store, oldHead, store[oldHead].number) == Some(a)
    requires Ancestry(store, newHead, store[newHead].number) == Some(b)
    requires k < |a| && k < |b|
    ensures a[k] == b[k] <==> k <= f.number
  {
    hide Walked, Ancestry, Related;
    ForkChains(store, oldHead, newHead, f, a);
    assert a == a[..f.number + 1] + Reversed(f.oldChain);
    if k > f.number {
      AncestryIsChain(store, oldHead, store[oldHead].number);
      AncestryIsChain(store, newHead, store[newHead].number);
      assert a[f.number + 1] != b[f.number + 1];
      if a[k] == b[k] {
        MeetBelow(store, a, b, f.number + 1, k);
      }
    }
  }

  // The chain that reorg makes canonical: everything below the new head, or the new
  // head's whole chain when it already lies on the old one.
  ghost function Prefix(a: seq<Hash>, shared: nat, newBranch: seq<Hash>): seq<Hash>
    requires shared <= |a|
  {
    a[..shared] + (if newBranch == [] then [] else newBranch[..|newBranch| - 1])
  }

  lemma WriteNothing(store: Store, a: seq<Hash>, shared: nat, lookup: map<TxHash, nat>)
    requires shared <= |a| && forall h :: h in a ==> h in store
    ensures CanonOf(a) + CanonOf(a[..shared]) == CanonOf(a)
    ensures lookup + Written(store, a[..shared], shared) == lookup
  {
    assert |a[..shared]| == shared;
  }

  lemma CanonStep(canon: map<nat, Hash>, c: seq<Hash>, h: Hash)
    ensures (canon + CanonOf(c))[|c| := h] == canon + CanonOf(c + [h])
  {
  }

  lemma MapAssociative(x: map<TxHash, nat>, y: map<TxHash, nat>, z: map<TxHash, nat>)
    ensures (x + y) + z == x + (y + z)
  {
  }

  lemma WriteStep(store: Store, lookup: map<TxHash, nat>, c: seq<Hash>, from: nat, h: Hash)
    requires from <= |c| && h in store && forall g :: g in c ==> g in store
    ensures WriteLookups(lookup + Written(store, c, from), store[h].txs, |c|) == lookup + Written(store, c + [h], from)
  {
    assert (c + [h])[..|c|] == c;
    MapAssociative(lookup, Written(store, c, from), map t | t in store[h].txs :: |c|);
  }

  lemma WriteLookup(lookup: map<TxHash, nat>, txs: seq<TxHash>, k: nat, n: nat)
    requires k < |txs|
    ensures WriteLookups(lookup, txs[..k], n)[txs[k] := n] == WriteLookups(lookup, txs[..k + 1], n)
  {
    assert txs[..k + 1] == txs[..k] + [txs[k]];
  }

  lemma ReversedTxs(store: Store, s: seq<Hash>)
    ensures TxsOf(store, Reversed(s)) == TxsOf(store, s)
  {
    forall h | h in s ensures h in Reversed(s) {
      var k :| 0 <= k < |s| && s[k] == h;
      assert Reversed(s)[|s| - 1 - k] == h;
    }
  }

  // The dropped and the re-added transactions, as reorg collects them from its two lists.
  lemma BranchTxs(store: Store, a: seq<Hash>, shared: nat, oldChain: seq<Hash>, newChain: seq<Hash>)
    requires shared <= |a| && a[shared..] == Reversed(oldChain)
    ensures TxsOf(store, a[shared..]) == TxsOf(store, oldChain)
    ensures TxsOf(store, Prefix(a, shared, Reversed(newChain))[shared..]) == TxsOf(store, newChain[Min(1, |newChain|)..])
  {
    ReversedTxs(store, oldChain);
    var m := Prefix(a, shared, Reversed(newChain));
    if newChain == [] {
      assert m[shared..] == [];
    } else {
      assert m[shared..] == Reversed(newChain[1..]);
      ReversedTxs(store, newChain[1..]);
    }
  }

  lemma PrefixFacts(store: Store, a: seq<Hash>, shared: nat, branch: seq<Hash>)
    requires 0 < shared <= |a| && NoDuplicates(store, a[..shared] + branch)
    ensures var b, m := a[..shared] + branch, Prefix(a, shared, branch);
            && m == b[..|m|] && |b| - 1 <= |m| <= |b| && m[..shared] == a[..shared]
            && NoDuplicates(store, m) && forall h :: h in m ==> h in store
  {
    var b, m := a[..shared] + branch, Prefix(a, shared, branch);
    assert m == b[..|m|];
    assert forall k :: 0 <= k < |m| ==> m[k] == b[k];
  }

  lemma CanonDomain(a: seq<Hash>, m: seq<Hash>)
    ensures forall k :: k in CanonOf(a) + CanonOf(m) <==> 0 <= k < Max(|a|, |m|)
  {
  }

  lemma LookupKnown(store: Store, a: seq<Hash>, lookup: map<TxHash, nat>)
    requires LookupFor(store, a, lookup)
    ensures forall h :: h in a ==> h in store
  {
  }

  lemma WalkedPath(store: Store, h: Hash, cur: Hash, n: nat, path: seq<Hash>)
    requires h in store && Walked(store, h, cur, n, path)
    ensures forall k :: 0 <= k < |path| ==> path[k] in store && store[path[k]].number == n + |path| - k
  {
  }

  lemma Truncated(a: seq<Hash>, m: seq<Hash>, canon: map<nat, Hash>)
    requires canon == map k | k in CanonOf(a) + CanonOf(m) && k < |m| :: (CanonOf(a) + CanonOf(m))[k]
    ensures canon == CanonOf(m)
  {
  }

  // A block on top of the head extends its chain by one.
  lemma ExtendsChain(tree: Store, store: Store, head: Hash, h: Hash)
    requires TreeOk(tree) && Contains(tree, store) && head in store && h in store && store[h].parent == head
    requires Ancestry(store, head, store[head].number).Some?
    ensures var a := Ancestry(store, head, store[head].number).value;
            store[h].number == store[head].number + 1 && Ancestry(store, h, store[h].number) == Some(a + [h])
  {
    assert tree[h].number == tree[head].number + 1;
  }

  lemma RelatedToHead(store: Store, head: Hash, h: Hash, genesis: Hash)
    requires head in store && h in store
    requires var a := Ancestry(store, head, store[head].number);
             a.Some? && |a.value| > 0 && a.value[0] == genesis
    ensures Related(store, head, h) <==> ReachesGenesis(store, h, genesis)
  {
  }

  // The whole ancestry of h is present and ends in the genesis block.
  ghost predicate ReachesGenesis(store: Store, h: Hash, genesis: Hash)
    requires h in store
  {
    var b := Ancestry(store, h, store[h].number);
    b.Some? && |b.value| > 0 && b.value[0] == genesis
  }

  lemma CanonHead(c: seq<Hash>, m: nat)
    requires c != [] && |c| - 1 <= m <= |c|
    ensures CanonOf(c[..m])[|c| - 1 := c[|c| - 1]] == CanonOf(c)
  {
  }

  // Storing one more block of the tree leaves every complete chain and its table alone.
  lemma StoreGrows(tree: Store, store: Store, h: Hash, head: Hash, lookup: map<TxHash, nat>)
    requires Contains(tree, store) && h in tree && head in store
    requires Ancestry(store, head, store[head].number).Some?
    requires LookupFor(store, Ancestry(store, head, store[head].number).value, lookup)
    ensures var store' := store[h := tree[h]];
            && Contains(tree, store') && store'[head] == store[head]
            && Ancestry(store', head, store[head].number) == Ancestry(store, head, store[head].number)
            && LookupFor(store', Ancestry(store, head, store[head].number).value, lookup)
  {
    var store' := store[h := tree[h]];
    AncestryMonotone(store, store', head, store[head].number);
    var a := Ancestry(store, head, store[head].number).value;
    assert forall k :: 0 <= k < |a| ==> store'[a[k]] == store[a[k]];
  }

  lemma Reaches(store: Store, h: Hash, genesis: Hash)
    requires h in store && ReachesGenesis(store, h, genesis)
    ensures var b := Ancestry(store, h, store[h].number);
            b.Some? && b.value != [] && b.value[0] == genesis
  {
  }

  lemma ChildReaches(store: Store, h: Hash, genesis: Hash, a: seq<Hash>)
    requires h in store && Ancestry(store, h, store[h].number) == Some(a + [h]) && a != [] && a[0] == genesis
    ensures ReachesGenesis(store, h, genesis)
  {
  }

  // What a caller may ask the chain to do.
  datatype Op = WriteBlockAndSetHead(h: Hash, block: Block) | WriteKnownBlock(h: Hash) | SetCanonical(h: Hash)

  // What a sequence of operations is about: the stored blocks and the head.
  datatype View = View(store: Store, head: Hash)

  ghost predicate ParentKnown(store: Store, block: Block) {
    block.number > 0 && GetHeader(store, block.parent, block.number - 1).Some?
  }

  ghost predicate CanBeHead(store: Store, h: Hash, genesis: Hash) {
    h in store && ReachesGenesis(store, h, genesis)
  }

  ghost function AfterOp(v: View, genesis: Hash, op: Op): View {
    match op
    case WriteBlockAndSetHead(h, block) =>
      if !ParentKnown(v.store, block) then v
      else
        var store := v.store[h := block];
        View(store, if CanBeHead(store, h, genesis) then h else v.head)
    case WriteKnownBlock(h) => if CanBeHead(v.store, h, genesis) then v.(head := h) else v
    case SetCanonical(h) => if CanBeHead(v.store, h, genesis) then v.(head := h) else v
  }

  ghost function AfterOps(v: View, genesis: Hash, ops: seq<Op>): View {
    if ops == [] then v else AfterOp(AfterOps(v, genesis, ops[..|ops| - 1]), genesis, ops[|ops| - 1])
  }

  ghost predicate OpsOf(tree: Store, ops: seq<Op>) {
    forall op :: op in ops && op.WriteBlockAndSetHead? ==> op.h in tree && tree[op.h] == op.block
  }

  // Once operation i is through, its block is stored and descends from the genesis block.
  // A block of number 0 is never written.
  ghost predicate Granted(v: View, genesis: Hash, ops: seq<Op>, i: nat) {
    && i < |ops| && CanBeHead(AfterOps(v, genesis, ops[..i + 1]).store, ops[i].h, genesis)
    && (ops[i].WriteBlockAndSetHead? ==> ops[i].block.number > 0)
  }

  ghost predicate LastGranted(v: View, genesis: Hash, ops: seq<Op>, i: nat) {
    Granted(v, genesis, ops, i) && forall k :: i < k < |ops| ==> !Granted(v, genesis, ops, k)
  }

  // The head is the block of the last operation that could be granted.
  lemma {:induction false} HeadIsLastGranted(tree: Store, v: View, genesis: Hash, ops: seq<Op>)
    requires Contains(tree, v.store) && OpsOf(tree, ops)
    ensures Contains(tree, AfterOps(v, genesis, ops).store)
    ensures forall i: nat :: LastGranted(v, genesis, ops, i) ==> AfterOps(v, genesis, ops).head == ops[i].h
    ensures (forall i: nat :: !Granted(v, genesis, ops, i)) ==> AfterOps(v, genesis, ops).head == v.head
    decreases |ops|
  {
    if ops == [] {
      NoOps(v, genesis, ops);
      assert ops[..0] == ops;
    } else {
      var init, last := ops[..|ops| - 1], |ops| - 1;
      OneMore(v, genesis, ops, last);
      assert ops[..last + 1] == ops;
      hide AfterOp, AfterOps, Contains, Granted, CanBeHead;
      HeadIsLastGranted(tree, v, genesis, init);
      forall i: nat | i < last ensures Granted(v, genesis, ops, i) <==> Granted(v, genesis, init, i) {
        GrantedBefore(v, genesis, ops, i);
      }
      assert ops[last] in ops;
      HeadMovesIfGranted(tree, AfterOps(v, genesis, init), genesis, ops[last]);
      LastIsGranted(v, genesis, ops);
      forall i: nat | LastGranted(v, genesis, ops, i) ensures AfterOps(v, genesis, ops).head == ops[i].h {
        GrantedInRange(v, genesis, ops, i);
        assert i < last ==> LastGranted(v, genesis, init, i);
      }
      if forall i: nat :: !Granted(v, genesis, ops, i) {
        forall i: nat ensures !Granted(v, genesis, init, i) {
          if i >= last {
            NotGrantedAbove(v, genesis, init, i);
          }
        }
      }
    }
  }

  lemma GrantedBefore(v: View, genesis: Hash, ops: seq<Op>, i: nat)
    requires i < |ops| - 1
    ensures Granted(v, genesis, ops, i) <==> Granted(v, genesis, ops[..|ops| - 1], i)
  {
    hide CanBeHead;
    assert ops[..i + 1] == ops[..|ops| - 1][..i + 1];
  }

  lemma GrantedInRange(v: View, genesis: Hash, ops: seq<Op>, i: nat)
    requires LastGranted(v, genesis, ops, i)
    ensures i < |ops| && Granted(v, genesis, ops, i)
  {
    hide CanBeHead;
  }

  lemma NotGrantedAbove(v: View, genesis: Hash, ops: seq<Op>, i: nat)
    requires i >= |ops|
    ensures !Granted(v, genesis, ops, i)
  {
  }

  lemma LastIsGranted(v: View, genesis: Hash, ops: seq<Op>)
    requires ops != []
    ensures var op := ops[|ops| - 1];
            Granted(v, genesis, ops, |ops| - 1) <==>
              CanBeHead(AfterOps(v, genesis, ops).store, op.h, genesis) && (op.WriteBlockAndSetHead? ==> op.block.number > 0)
  {
    hide CanBeHead, AfterOps;
    assert ops[..|ops| - 1 + 1] == ops;
  }

  lemma NoOps(v: View, genesis: Hash, ops: seq<Op>)
    ensures AfterOps(v, genesis, ops[..0]) == v
  {
  }

  lemma OneMore(v: View, genesis: Hash, ops: seq<Op>, i: nat)
    requires i < |ops|
    ensures AfterOps(v, genesis, ops[..i + 1]) == AfterOp(AfterOps(v, genesis, ops[..i]), genesis, ops[i])
  {
    assert ops[..i + 1][..i] == ops[..i];
  }

  lemma WritesOf(tree: Store, ops: seq<Op>, i: nat)
    requires OpsOf(tree, ops) && i < |ops| && ops[i].WriteBlockAndSetHead?
    ensures ops[i].h in tree && tree[ops[i].h] == ops[i].block
  {
    assert ops[i] in ops;
  }

  lemma HeadMovesIfGranted(tree: Store, v: View, genesis: Hash, op: Op)
    requires Contains(tree, v.store) && OpsOf(tree, [op])
    ensures var t := AfterOp(v, genesis, op);
            && Contains(tree, t.store)
            && (if CanBeHead(t.store, op.h, genesis) && (op.WriteBlockAndSetHead? ==> op.block.number > 0)
                then t.head == op.h else t.head == v.head)
  {
    assert op in [op];
    if op.WriteBlockAndSetHead? && CanBeHead(v.store, op.h, genesis) && op.block.number > 0 {
      AncestryIsChain(v.store, op.h, op.block.number);
      assert ParentKnown(v.store, op.block);
    }
  }

  class Chain {
    var store: Store
    var canon: map<nat, Hash>
    var lookup: map<TxHash, nat>
    var head: Hash        // current block
    var headHeader: Hash  // current header
    var headFast: Hash    // current snap block
    ghost const tree: Store
    const genesis: Hash

    // The indexes agree with the ancestry of the head.
    ghost predicate Valid()
      reads this
    {
      && TreeOk(tree) && Contains(tree, store) && head in store && head == headHeader == headFast
      && var a := Ancestry(store, head, store[head].number);
         a.Some? && |a.value| > 0 && a.value[0] == genesis &&
         canon == CanonOf(a.value) && LookupFor(store, a.value, lookup)
    }

    constructor (ghost tree: Store, genesis: Hash, block: Block)
      requires TreeOk(tree) && genesis in tree && tree[genesis] == block && block.number == 0
      ensures Valid() && head == genesis && this.tree == tree && this.genesis == genesis
    {
      this.tree := tree;
      this.genesis := genesis;
      store := map[genesis := block];
      canon := map[0 := genesis];
      lookup := map t | t in block.txs :: 0;
      head, headHeader, headFast := genesis, genesis, genesis;
    }

    // writeHeadBlock: canonical hash, lookup entries and head markers of one block.
    method WriteHeadBlock(h: Hash)
      requires h in store
      modifies this`canon, this`lookup, this`head, this`headHeader, this`headFast
      ensures head == headHeader == headFast == h
      ensures canon == old(canon)[store[h].number := h]
      ensures lookup == WriteLookups(old(lookup), store[h].txs, store[h].number)
    {
      var b := store[h];
      var batch := lookup;
      assert batch == WriteLookups(lookup, [], b.number);
      hide WriteLookups;
      for k := 0 to |b.txs|
        invariant canon == old(canon) && lookup == old(lookup)
        invariant batch == WriteLookups(lookup, b.txs[..k], b.number)
      {
        WriteLookup(lookup, b.txs, k, b.number);
        batch := batch[b.txs[k] := b.number];
      }
      assert b.txs[..|b.txs|] == b.txs;
      canon, lookup := canon[b.number := h], batch;
      head, headHeader, headFast := h, h, h;
    }

    // The transactions of a list of blocks, in list order.
    method CollectTxs(blocks: seq<Hash>, from: nat) returns (txs: seq<TxHash>)
      requires from <= |blocks| && forall h :: h in blocks ==> h in store
      ensures forall t :: t in txs <==> t in TxsOf(store, blocks[from..])
    {
      txs := [];
      for i := from to |blocks|
        invariant forall t :: t in txs <==> t in TxsOf(store, blocks[from..i])
      {
        assert blocks[from..i + 1] == blocks[from..i] + [blocks[i]];
        txs := txs + store[blocks[i]].txs;
      }
      assert blocks[from..|blocks|] == blocks[from..];
    }

    // Makes the new branch canonical, oldest block first, up to but not including the new head.
    method ApplyBranch(newChain: seq<Hash>, ghost a: seq<Hash>, ghost shared: nat)
      requires shared <= |a| && newChain != [] && canon == CanonOf(a)
      requires forall h :: h in newChain ==> h in store
      requires forall h :: h in a ==> h in store
      requires forall k :: 0 <= k < |newChain| ==> store[newChain[k]].number == shared + |newChain| - 1 - k
      modifies this`canon, this`lookup, this`head, this`headHeader, this`headFast
      ensures var m := Prefix(a, shared, Reversed(newChain));
              && (forall h :: h in m ==> h in store)
              && canon == CanonOf(a) + CanonOf(m) && lookup == old(lookup) + Written(store, m, shared)
    {
      hide CanonOf, Written, WriteLookups;
      ghost var asc := Reversed(newChain);
      ghost var j := 0;
      var i := |newChain| - 1;
      assert a[..shared] + asc[..0] == a[..shared];
      WriteNothing(store, a, shared, lookup);
      while i >= 1
        invariant 0 <= i < |newChain| && j == |newChain| - 1 - i
        invariant forall h :: h in a[..shared] + asc[..j] ==> h in store
        invariant canon == CanonOf(a) + CanonOf(a[..shared] + asc[..j])
        invariant lookup == old(lookup) + Written(store, a[..shared] + asc[..j], shared)
      {
        ghost var c := a[..shared] + asc[..j];
        assert a[..shared] + asc[..j + 1] == c + [asc[j]];
        CanonStep(CanonOf(a), c, asc[j]);
        WriteStep(store, old(lookup), c, shared, asc[j]);
        WriteHeadBlock(newChain[i]);
        i, j := i - 1, j + 1;
      }
    }

    method WriteBranch(newChain: seq<Hash>, ghost a: seq<Hash>, ghost shared: nat)
      requires shared <= |a| && canon == CanonOf(a)
      requires forall h :: h in a ==> h in store
      requires forall k :: 0 <= k < |newChain| ==>
                 newChain[k] in store && store[newChain[k]].number == shared + |newChain| - 1 - k
      modifies this`canon, this`lookup, this`head, this`headHeader, this`headFast
      ensures var m := Prefix(a, shared, Reversed(newChain));
              && (forall h :: h in m ==> h in store)
              && canon == CanonOf(a) + CanonOf(m) && lookup == old(lookup) + Written(store, m, shared)
    {
      hide CanonOf, Written;
      if newChain != [] {
        ApplyBranch(newChain, a, shared);
      } else {
        WriteNothing(store, a, shared, lookup);
        assert Prefix(a, shared, Reversed(newChain)) == a[..shared];
      }
    }

    // Drops every canonical hash from number `from` on, up to the first gap.
    method TruncateCanonical(from: nat, ghost bound: nat)
      requires forall k :: k in canon <==> 0 <= k < bound
      modifies this`canon
      ensures canon == map k | k in old(canon) && k < from :: old(canon)[k]
    {
      var batch: set<nat> := {};
      var i := from;
      while i in canon
        invariant from <= i && (i <= bound || batch == {})
        invariant forall k :: k in batch <==> from <= k < i
        decreases bound - i
      {
        batch := batch + {i};
        i := i + 1;
      }
      canon := canon - batch;
    }

    // Step two of reorg: write the new branch, drop the transactions that only the old
    // branch had, cut the canonical hashes above the new branch.
    method SwitchIndexes(f: Fork, ghost a: seq<Hash>, ghost shared: nat)
      requires shared == f.number + 1 <= |a| && a[shared..] == Reversed(f.oldChain)
      requires canon == CanonOf(a) && LookupFor(store, a, lookup)
      requires forall k :: 0 <= k < |f.newChain| ==>
                 f.newChain[k] in store && store[f.newChain[k]].number == f.number + |f.newChain| - k
      requires forall h :: h in f.oldChain ==> h in store
      requires NoDuplicates(store, a[..shared] + Reversed(f.newChain))
      modifies this`canon, this`lookup, this`head, this`headHeader, this`headFast
      ensures var m := Prefix(a, shared, Reversed(f.newChain));
              canon == CanonOf(m) && LookupFor(store, m, lookup)
    {
      hide LookupFor, NoDuplicates, CanonOf, Written, TxsOf;
      ghost var m := Prefix(a, shared, Reversed(f.newChain));
      assert forall h :: h in a ==> h in store by { LookupKnown(store, a, lookup); }
      PrefixFacts(store, a, shared, Reversed(f.newChain));
      BranchTxs(store, a, shared, f.oldChain, f.newChain);
      var deletedTxs := CollectTxs(f.oldChain, 0);
      var rebirthTxs := CollectTxs(f.newChain, Min(1, |f.newChain|));
      ghost var gone' := TxsOf(store, a[shared..]) - TxsOf(store, m[shared..]);
      assert f.oldChain[0..] == f.oldChain;
      ReorgLookup(store, a, m, shared, lookup, gone');
      ghost var bound := Max(|a|, |m|);
      CanonDomain(a, m);
      WriteBranch(f.newChain, a, shared);
      var gone := set t | t in deletedTxs && t !in rebirthTxs;
      assert gone == gone';
      lookup := lookup - gone;
      var number := if |f.newChain| > 1 then store[f.newChain[1]].number else f.number;
      assert number + 1 == |m|;
      TruncateCanonical(number + 1, bound);
      Truncated(a, m, canon);
    }

    // reorg: switches the indexes from the chain of the head to the chain of newHead,
    // which the caller then writes itself. Fails, changing nothing, exactly when the two
    // chains do not meet.
    method Reorg(newHead: Hash) returns (ok: bool, ghost m: nat)
      requires Valid() && newHead in store
      modifies this`canon, this`lookup, this`head, this`headHeader, this`headFast
      ensures ok <==> Related(store, old(head), newHead)
      ensures !ok ==> canon == old(canon) && lookup == old(lookup) && head == old(head) && headHeader == old(headHeader) && headFast == old(headFast)
      ensures ok ==>
                var b := Ancestry(store, newHead, store[newHead].number).value;
                && |b| - 1 <= m <= |b| && canon == CanonOf(b[..m]) && LookupFor(store, b[..m], lookup)
    {
      hide TreeOk, Contains, Ancestry, Walked, Related, LookupFor, NoDuplicates, IsChain, CanonOf, Written, TxsOf;
      m := 0;
      var r := FindFork(store, head, newHead);
      if r.Invalid? {
        return false, 0;
      }
      var f := r.fork;
      ghost var a := Ancestry(store, head, store[head].number).value;
      ghost var shared := f.number + 1;
      ForkChains(store, head, newHead, f, a);
      WalkedPath(store, head, f.common, f.number, f.oldChain);
      WalkedPath(store, newHead, f.common, f.number, f.newChain);
      StoreChain(tree, store, newHead);
      PrefixFacts(store, a, shared, Reversed(f.newChain));
      ok, m := true, |Prefix(a, shared, Reversed(f.newChain))|;
      SwitchIndexes(f, a, shared);
    }

    // Reorganise unless h extends the head, then make h the head.
    method SetHead(h: Hash) returns (ok: bool)
      requires Valid() && h in store
      modifies this`canon, this`lookup, this`head, this`headHeader, this`headFast
      ensures Valid()
      ensures ok <==> ReachesGenesis(store, h, genesis)
      ensures head == if ok then h else old(head)
    {
      hide TreeOk, Contains, Ancestry, Related, LookupFor, NoDuplicates, IsChain, CanonOf, WriteLookups, ReachesGenesis;
      RelatedToHead(store, head, h, genesis);
      ghost var m: nat;
      if store[h].parent != head {
        ok, m := Reorg(h);
        if !ok {
          return;
        }
      } else {
        ExtendsChain(tree, store, head, h);
        ok, m := true, |Ancestry(store, head, store[head].number).value|;
        ghost var a := Ancestry(store, head, store[head].number).value;
        assert (a + [h])[..m] == a;
        assert ReachesGenesis(store, h, genesis) by { ChildReaches(store, h, genesis, a); }
      }
      Reaches(store, h, genesis);
      ghost var b := Ancestry(store, h, store[h].number).value;
      StoreChain(tree, store, h);
      HeadLookup(store, b, m, lookup);
      CanonHead(b, m);
      WriteHeadBlock(h);
    }

    // writeBlockAndSetHead: stores the block if its parent header is known.
    method WriteBlockAndSetHeadTo(h: Hash, block: Block) returns (ok: bool)
      requires Valid() && h in tree && tree[h] == block
      modifies this
      ensures Valid()
      ensures ok <==> old(block.number > 0 && GetHeader(store, block.parent, block.number - 1).Some?) &&
                      h in store && ReachesGenesis(store, h, genesis)
      ensures head == if ok then h else old(head)
      ensures store == if old(block.number > 0 && GetHeader(store, block.parent, block.number - 1).Some?)
                       then old(store)[h := block] else old(store)
    {
      hide TreeOk, Ancestry, LookupFor, CanonOf, ReachesGenesis;
      if block.number == 0 || GetHeader(store, block.parent, block.number - 1).None? {
        return false;
      }
      StoreGrows(tree, store, h, head, lookup);
      store := store[h := block];
      ok := SetHead(h);
    }

    lemma StoreInTree()
      requires Valid()
      ensures Contains(tree, store)
    {
    }

    // writeKnownBlock: a stored block becomes the head.
    method WriteKnownBlockAsHead(h: Hash) returns (ok: bool)
      requires Valid()
      modifies this`canon, this`lookup, this`head, this`headHeader, this`headFast
      ensures Valid()
      ensures ok <==> CanBeHead(store, h, genesis)
      ensures head == if ok then h else old(head)
    {
      hide Valid, ReachesGenesis;
      ok := false;
      if h in store {
        ok := SetHead(h);
      }
    }

    // SetCanonical, for a block whose state is available.
    method SetCanonicalHead(h: Hash) returns (ok: bool)
      requires Valid()
      modifies this`canon, this`lookup, this`head, this`headHeader, this`headFast
      ensures Valid()
      ensures ok <==> CanBeHead(store, h, genesis)
      ensures head == if ok then h else old(head)
    {
      hide Valid, ReachesGenesis;
      ok := false;
      if h in store {
        ok := SetHead(h);
      }
    }

    // Any sequence of operations keeps the indexes in agreement with the head, and the head
    // is the block of the last operation that could be granted.
    method Run(ops: seq<Op>)
      requires Valid() && OpsOf(tree, ops)
      modifies this
      ensures Valid()
      ensures store == AfterOps(old(View(store, head)), genesis, ops).store
      ensures forall i: nat :: LastGranted(old(View(store, head)), genesis, ops, i) ==> head == ops[i].h
      ensures (forall i: nat :: !Granted(old(View(store, head)), genesis, ops, i)) ==> head == old(head)
    {
      hide Valid, ReachesGenesis, LastGranted, Granted, AfterOps, OpsOf;
      ghost var v := View(store, head);
      StoreInTree();
      NoOps(v, genesis, ops);
      for i := 0 to |ops|
        invariant Valid() && View(store, head) == AfterOps(v, genesis, ops[..i])
      {
        OneMore(v, genesis, ops, i);
        match ops[i] {
          case WriteBlockAndSetHead(h, block) =>
            WritesOf(tree, ops, i);
            var _ := WriteBlockAndSetHeadTo(h, block);
          case WriteKnownBlock(h) =>
            var _ := WriteKnownBlockAsHead(h);
          case SetCanonical(h) =>
            var _ := SetCanonicalHead(h);
        }
      }
      assert ops[..|ops|] == ops;
      HeadIsLastGranted(tree, v, genesis, ops);
    }
  }
}
