// Blocks by hash, and the ancestry of a block: the chain of parents down to number 0.
module ChainStore {
  import opened Base

  type Hash = nat

  type TxHash = nat

  // For a pure header chain `txs` plays no role.
  datatype Block = Block(number: nat, parent: Hash, txs: seq<TxHash>)

  type Store = map<Hash, Block>

  // The database key holds both the number and the hash.
  function GetHeader(store: Store, h: Hash, n: nat): (r: Option<Block>) {
    if h in store && store[h].number == n then Some(store[h]) else None
  }

  // The hashes from number 0 up to block h at number n, or None when a header is missing.
  ghost function Ancestry(store: Store, h: Hash, n: nat): Option<seq<Hash>>
    decreases n
  {
    match GetHeader(store, h, n)
    case None => None
    case Some(b) =>
      if n == 0 then Some([h])
      else
        match Ancestry(store, b.parent, n - 1)
        case None => None
        case Some(c) => Some(c + [h])
  }

  // A chain that starts at number 0 and follows the parent links upwards.
  ghost predicate IsChain(store: Store, c: seq<Hash>) {
    && c != []
    && (forall k :: 0 <= k < |c| ==> c[k] in store && store[c[k]].number == k)
    && (forall k :: 0 < k < |c| ==> store[c[k]].parent == c[k - 1])
  }

  lemma {:induction false} AncestryIsChain(store: Store, h: Hash, n: nat)
    requires Ancestry(store, h, n).Some?
    ensures var c := Ancestry(store, h, n).value;
            IsChain(store, c) && |c| == n + 1 && c[n] == h
    decreases n
  {
    if n > 0 {
      var p := store[h].parent;
      AncestryIsChain(store, p, n - 1);
    }
  }

  lemma {:induction false} ChainIsAncestry(store: Store, c: seq<Hash>, k: nat)
    requires IsChain(store, c) && k < |c|
    ensures Ancestry(store, c[k], k) == Some(c[..k + 1])
  {
    if k > 0 {
      ChainIsAncestry(store, c, k - 1);
      assert c[..k] + [c[k]] == c[..k + 1];
    } else {
      assert c[..1] == [c[0]];
    }
  }

  // Two chains that meet share everything below.
  lemma ChainsMeet(store: Store, a: seq<Hash>, b: seq<Hash>, k: nat)
    requires IsChain(store, a) && IsChain(store, b) && k < |a| && k < |b| && a[k] == b[k]
    ensures a[..k + 1] == b[..k + 1]
  {
    ChainIsAncestry(store, a, k);
    ChainIsAncestry(store, b, k);
  }

  // A larger store does not change a complete ancestry.
  lemma {:induction false} AncestryMonotone(store: Store, store': Store, h: Hash, n: nat)
    requires forall g :: g in store ==> g in store' && store'[g] == store[g]
    requires Ancestry(store, h, n).Some?
    ensures Ancestry(store', h, n) == Ancestry(store, h, n)
    decreases n
  {
    if n > 0 {
      AncestryMonotone(store, store', store[h].parent, n - 1);
    }
  }

  // The number-to-hash index of a chain.
  ghost function CanonOf(c: seq<Hash>): map<nat, Hash> {
    map k | 0 <= k < |c| :: c[k]
  }

  // A branch collected newest first, oldest first.
  ghost function Reversed(s: seq<Hash>): seq<Hash> {
    seq(|s|, i requires 0 <= i < |s| => s[|s| - 1 - i])
  }

  // A walk down from a block: `path` are the blocks left behind, newest first.
  ghost function Below(rest: Option<seq<Hash>>, path: seq<Hash>): Option<seq<Hash>> {
    match rest
    case None => None
    case Some(c) => Some(c + Reversed(path))
  }

  lemma WalkStart(store: Store, h: Hash, n: nat)
    ensures Ancestry(store, h, n) == Below(Ancestry(store, h, n), [])
  {
    match Ancestry(store, h, n)
    case None =>
    case Some(c) => assert c + [] == c;
  }

  // One step down leaves the current block behind.
  lemma WalkStep(store: Store, h: Hash, n: nat, path: seq<Hash>)
    requires n > 0 && GetHeader(store, h, n).Some?
    ensures Below(Ancestry(store, h, n), path) == Below(Ancestry(store, store[h].parent, n - 1), path + [h])
  {
    assert Reversed(path + [h]) == [h] + Reversed(path);
    match Ancestry(store, store[h].parent, n - 1)
    case None =>
    case Some(c) => assert c + [h] + Reversed(path) == c + ([h] + Reversed(path));
  }
}
