// The block-hash lookup of core/evm.go: a closure that walks the parent chain of a
// reference header and remembers the hashes it has passed.
module HashCache {
  import opened Base
  import opened ChainStore

  // The hash of block ref.number - 1 - k, by k fresh parent steps from the reference header.
  ghost function Walk(store: Store, ref: Block, k: nat): Option<Hash>
    requires k < ref.number
  {
    if k == 0 then Some(ref.parent)
    else
      match Walk(store, ref, k - 1)
      case None => None
      case Some(h) =>
        match GetHeader(store, h, ref.number - k)
        case None => None
        case Some(b) => Some(b.parent)
  }

  // What a query for block n has to answer; the zero hash stands for "not available".
  ghost function Answer(store: Store, ref: Block, n: nat): Hash {
    if n >= ref.number then 0
    else
      match Walk(store, ref, ref.number - 1 - n)
      case None => 0
      case Some(h) => h
  }

  lemma {:induction false} MissingStaysMissing(store: Store, ref: Block, j: nat, k: nat)
    requires j <= k < ref.number && Walk(store, ref, j).None?
    ensures Walk(store, ref, k).None?
  {
    if j < k {
      MissingStaysMissing(store, ref, j, k - 1);
    }
  }

  // On a complete ancestry the answer is the canonical block of that number.
  lemma {:induction false} WalkIsAncestry(store: Store, ref: Block, c: seq<Hash>, k: nat)
    requires IsChain(store, c) && |c| == ref.number && k < ref.number && ref.parent == c[|c| - 1]
    ensures Walk(store, ref, k) == Some(c[ref.number - 1 - k])
  {
    if k > 0 {
      WalkIsAncestry(store, ref, c, k - 1);
    }
  }

  // Blocks |c| down from the reference header are linked: c[0] is the oldest hash known.
  ghost predicate LinkedTo(store: Store, ref: Block, c: seq<Hash>) {
    0 < |c| <= ref.number && c[|c| - 1] == ref.parent && forall k :: 0 < k < |c| ==> LinkAt(store, ref, c, k)
  }

  ghost predicate LinkAt(store: Store, ref: Block, c: seq<Hash>, k: nat)
    requires 0 < k < |c| <= ref.number
  {
    var b := GetHeader(store, c[k], ref.number - |c| + k);
    b.Some? && b.value.parent == c[k - 1]
  }

  lemma {:induction false} WalkIsLinked(store: Store, ref: Block, c: seq<Hash>, k: nat)
    requires LinkedTo(store, ref, c) && k < |c|
    ensures Walk(store, ref, k) == Some(c[|c| - 1 - k])
  {
    if k > 0 {
      WalkIsLinked(store, ref, c, k - 1);
      assert LinkAt(store, ref, c, |c| - k);
    }
  }

  // A query for a block below the reference header is answered with the hash of the ancestor
  // of that number, if all headers in between are there; everything else gets the zero hash.
  lemma AnswerIsAncestor(store: Store, ref: Block, c: seq<Hash>, n: nat)
    requires LinkedTo(store, ref, c)
    ensures n >= ref.number ==> Answer(store, ref, n) == 0
    ensures ref.number - |c| <= n < ref.number ==> Answer(store, ref, n) == c[n - (ref.number - |c|)]
    ensures n < ref.number - |c| && GetHeader(store, c[0], ref.number - |c|).None? ==> Answer(store, ref, n) == 0
  {
    if ref.number - |c| <= n < ref.number {
      WalkIsLinked(store, ref, c, ref.number - 1 - n);
    } else if n < ref.number {
      WalkIsLinked(store, ref, c, |c| - 1);
      if GetHeader(store, c[0], ref.number - |c|).None? {
        MissingStaysMissing(store, ref, |c|, ref.number - 1 - n);
      }
    }
  }

  class HashFn {
    const ref: Block
    const store: Store
    var cache: seq<Hash>

    // cache[k] is the hash of block ref.number - 1 - k.
    ghost predicate Valid()
      reads this
    {
      |cache| <= ref.number && forall k :: 0 <= k < |cache| ==> Walk(store, ref, k) == Some(cache[k])
    }

    constructor (ref: Block, store: Store)
      ensures Valid() && this.ref == ref && this.store == store && cache == []
    {
      this.ref, this.store, cache := ref, store, [];
    }

    // One query; the cache only ever grows.
    method GetHash(n: nat) returns (h: Hash)
      requires Valid()
      modifies this
      ensures Valid() && old(cache) <= cache
      ensures h == Answer(store, ref, n)
    {
      if ref.number <= n {
        return 0;
      }
      if |cache| == 0 {
        cache := [ref.parent];
      }
      var idx := ref.number - n - 1;
      if idx < |cache| {
        return cache[idx];
      }
      var lastKnownHash, lastKnownNumber := cache[|cache| - 1], ref.number - |cache|;
      while true
        invariant Valid() && old(cache) <= cache && 0 < |cache| <= idx
        invariant lastKnownHash == cache[|cache| - 1] && lastKnownNumber == ref.number - |cache|
        decreases lastKnownNumber
      {
        var header := GetHeader(store, lastKnownHash, lastKnownNumber);
        if header.None? {
          MissingStaysMissing(store, ref, |cache|, idx);
          return 0;
        }
        cache := cache + [header.value.parent];
        lastKnownHash := header.value.parent;
        lastKnownNumber := header.value.number - 1;
        if n == lastKnownNumber {
          return lastKnownHash;
        }
      }
    }

    // Any sequence of queries on one closure is answered as if each were the first.
    method GetHashes(queries: seq<nat>) returns (answers: seq<Hash>)
      requires Valid()
      modifies this
      ensures Valid() && |answers| == |queries|
      ensures forall i :: 0 <= i < |queries| ==> answers[i] == Answer(store, ref, queries[i])
    {
      answers := [];
      for i := 0 to |queries|
        invariant Valid() && |answers| == i
        invariant forall j :: 0 <= j < i ==> answers[j] == Answer(store, ref, queries[j])
      {
        var h := GetHash(queries[i]);
        answers := answers + [h];
      }
    }
  }
}
