// The header-only chain of core/headerchain.go: batches of headers, the canonical number
// index under Reorg, and ancestor lookup.
module HeaderChain {
  import opened Base
  import opened ChainStore
  import opened BlockChain

  datatype Header = Header(hash: Hash, block: Block)

  // A contiguous batch of headers of the tree.
  ghost predicate LinkedBatch(tree: Store, headers: seq<Header>) {
    && (forall i :: 0 <= i < |headers| ==> headers[i].hash in tree && tree[headers[i].hash] == headers[i].block)
    && (forall i :: 0 < i < |headers| ==>
          headers[i].block.parent == headers[i - 1].hash && headers[i].block.number == headers[i - 1].block.number + 1)
  }

  ghost predicate Stored(store: Store, headers: seq<Header>) {
    forall i :: 0 <= i < |headers| ==> headers[i].hash in store && store[headers[i].hash] == headers[i].block
  }

  ghost predicate Listed(headers: seq<Header>, g: Hash) {
    exists i :: 0 <= i < |headers| && headers[i].hash == g
  }

  ghost function Hashes(headers: seq<Header>): seq<Hash> {
    seq(|headers|, i requires 0 <= i < |headers| => headers[i].hash)
  }

  // The ancestry of a batch is the ancestry of its first header plus the batch.
  lemma {:induction false} BatchAncestry(tree: Store, store: Store, headers: seq<Header>, k: nat)
    requires LinkedBatch(tree, headers) && Stored(store, headers) && k < |headers|
    ensures var first, h := headers[0], headers[k];
            Ancestry(store, h.hash, h.block.number) ==
            match Ancestry(store, first.hash, first.block.number)
            case None => None
            case Some(c) => Some(c + Hashes(headers[1..k + 1]))
  {
    if k == 0 {
      assert Hashes(headers[1..1]) == [];
      match Ancestry(store, headers[0].hash, headers[0].block.number)
      case None =>
      case Some(c) => assert c + [] == c;
    } else {
      BatchAncestry(tree, store, headers, k - 1);
      assert Hashes(headers[1..k + 1]) == Hashes(headers[1..k]) + [headers[k].hash];
      match Ancestry(store, headers[0].hash, headers[0].block.number)
      case None =>
      case Some(c) => assert c + Hashes(headers[1..k]) + [headers[k].hash] == c + Hashes(headers[1..k + 1]);
    }
  }

  // The batch w writes the downward path that starts at number top.
  ghost predicate WritesPath(w: map<nat, Hash>, path: seq<Hash>, top: nat) {
    && (forall k :: k in w <==> top - |path| < k <= top && 0 <= k)
    && (forall k :: k in w ==> w[k] == path[top - k])
  }

  // The batch w writes the first m headers.
  ghost predicate WritesBatch(w: map<nat, Hash>, headers: seq<Header>, m: nat)
    requires headers != [] && m <= |headers|
  {
    var n := headers[0].block.number;
    && (forall k :: k in w <==> n <= k < n + m)
    && (forall k :: k in w ==> w[k] == headers[k - n].hash)
  }

  lemma WriteOne(w: map<nat, Hash>, headers: seq<Header>, m: nat)
    requires m < |headers| && WritesBatch(w, headers, m)
    ensures WritesBatch(w[headers[0].block.number + m := headers[m].hash], headers, m + 1)
  {
  }

  lemma PathOne(w: map<nat, Hash>, path: seq<Hash>, top: nat, cur: Hash)
    requires |path| <= top && WritesPath(w, path, top)
    ensures WritesPath(w[top - |path| := cur], path + [cur], top)
  {
  }

  datatype WriteStatus = Canonical | NotNew | UnknownAncestor | MissingParent

  // ----- Ancestors by parent steps.

  // The block k parent steps below block h at number n.
  ghost function Up(store: Store, h: Hash, n: nat, k: nat): Option<Hash>
    requires k <= n
    decreases k
  {
    if k == 0 then Some(h)
    else
      match GetHeader(store, h, n)
      case None => None
      case Some(b) => Up(store, b.parent, n - 1, k - 1)
  }

  predicate IsCanonical(canon: map<nat, Hash>, h: Hash, n: nat) {
    n in canon && canon[n] == h
  }

  // Headers that have to be read one by one before the canonical chain takes over.
  ghost function SideSteps(store: Store, canon: map<nat, Hash>, h: Hash, n: nat, k: nat): nat
    requires k <= n
    decreases k
  {
    if k == 0 || IsCanonical(canon, h, n) then 0
    else
      match GetHeader(store, h, n)
      case None => 1
      case Some(b) => 1 + SideSteps(store, canon, b.parent, n - 1, k - 1)
  }

  // The next step down leads to the parent of the header reached so far.
  lemma {:induction false} UpOneMore(store: Store, h: Hash, n: nat, k: nat)
    requires k < n
    ensures Up(store, h, n, k + 1) ==
              match Up(store, h, n, k)
              case None => None
              case Some(g) =>
                match GetHeader(store, g, n - k)
                case None => None
                case Some(b) => Some(b.parent)
    decreases k
  {
    if k > 0 {
      match GetHeader(store, h, n)
      case None =>
      case Some(b) => UpOneMore(store, b.parent, n - 1, k - 1);
    }
  }

  // The side steps end at the first canonical ancestor, at the ancestor asked for, or where a
  // header is missing.
  lemma {:induction false} SideStepsMeaning(store: Store, canon: map<nat, Hash>, h: Hash, n: nat, k: nat)
    requires k <= n
    ensures var s := SideSteps(store, canon, h, n, k);
            && s <= k
            && (forall j :: 0 <= j < s ==> Up(store, h, n, j).Some? && !IsCanonical(canon, Up(store, h, n, j).value, n - j))
            && (s == k || Up(store, h, n, s).None? || IsCanonical(canon, Up(store, h, n, s).value, n - s))
    decreases k
  {
    if k > 0 && !IsCanonical(canon, h, n) {
      match GetHeader(store, h, n)
      case None =>
        assert Up(store, h, n, 0) == Some(h);
      case Some(b) =>
        SideStepsMeaning(store, canon, b.parent, n - 1, k - 1);
        forall j | 0 < j <= k ensures Up(store, h, n, j) == Up(store, b.parent, n - 1, j - 1) {
        }
    }
  }

  // On a chain, k steps down from number n lead to number n - k.
  lemma {:induction false} UpOnChain(store: Store, c: seq<Hash>, n: nat, k: nat)
    requires IsChain(store, c) && k <= n < |c|
    ensures Up(store, c[n], n, k) == Some(c[n - k])
    decreases k
  {
    if k > 0 {
      UpOnChain(store, c, n - 1, k - 1);
    }
  }

  class Chain {
    var store: Store
    var canon: map<nat, Hash>
    var current: Hash
    ghost const tree: Store

    // The number index is the ancestry of the current header, and empty above it.
    ghost predicate Valid()
      reads this
    {
      && Linked(tree) && Contains(tree, store) && current in store
      && var a := Ancestry(store, current, store[current].number);
         a.Some? && canon == CanonOf(a.value)
    }

    // The canonical hashes above number n, read from the database as it was before the batch.
    method Above(n: nat, ghost c: seq<Hash>) returns (batch: set<nat>)
      requires canon == CanonOf(c)
      ensures forall k :: k in batch <==> k in canon && k > n
    {
      batch := {};
      var i := n + 1;
      while i in canon
        invariant n < i && (i <= |c| || batch == {})
        invariant forall k :: k in batch <==> n < k < i
        decreases |c| - i
      {
        batch := batch + {i};
        i := i + 1;
      }
    }

    // Walks back from the first header to the cross link with the canonical chain.
    method CrossLink(first: Hash, ghost c: seq<Hash>)
      returns (ok: bool, batch: map<nat, Hash>, ghost n: nat, ghost path: seq<Hash>)
      requires first in store && canon == CanonOf(c) && IsChain(store, c)
      ensures ok <==> Ancestry(store, first, store[first].number).Some?
      ensures ok ==> WritesPath(batch, path, store[first].number)
      ensures ok ==> n + |path| == store[first].number + 1 && n <= |c| &&
                     Ancestry(store, first, store[first].number) == Some(c[..n] + Reversed(path))
    {
      batch := map[];
      path := [];
      var cur, number: nat := first, store[first].number;
      WalkStart(store, first, number);
      while !(number in canon && canon[number] == cur)
        invariant Walked(store, first, cur, number, path)
        invariant WritesPath(batch, path, store[first].number)
        decreases number
      {
        PathOne(batch, path, store[first].number, cur);
        batch := batch[number := cur];
        if number == 0 {
          n := 0;
          RootReached(store, first, cur, path, c);
          path := path + [cur];
          return true, batch, n, path;
        }
        WalkOn(store, first, cur, number, path);
        path := path + [cur];
        var header := GetHeader(store, store[cur].parent, number - 1);
        if header.None? {
          return false, batch, 0, path;
        }
        cur, number := store[cur].parent, number - 1;
      }
      n := number + 1;
      ChainIsAncestry(store, c, number);
      ok := true;
    }

    // Reorg: the index becomes the ancestry of the last header, whether the batch extends
    // the chain, forks off, overlaps it or ends below the current header.
    method Reorg(headers: seq<Header>) returns (ok: bool)
      requires Valid() && LinkedBatch(tree, headers) && Stored(store, headers)
      modifies this`canon, this`current
      ensures Valid()
      ensures headers == [] ==> ok && canon == old(canon) && current == old(current)
      ensures headers != [] ==>
                var last := headers[|headers| - 1];
                && (ok <==> Ancestry(store, last.hash, last.block.number).Some?)
                && (ok ==> current == last.hash)
                && (!ok ==> canon == old(canon) && current == old(current))
    {
      if headers == [] {
        return true;
      }
      hide Ancestry, IsChain, Contains, Linked, LinkedBatch, Stored, CanonOf, WritesPath, WritesBatch, Reversed, Hashes;
      var first, last := headers[0], headers[|headers| - 1];
      ghost var c := Ancestry(store, current, store[current].number).value;
      AncestryIsChain(store, current, store[current].number);
      BatchAncestry(tree, store, headers, |headers| - 1);
      assert headers[1..|headers|] == headers[1..];
      StoredAt(store, headers, 0);
      StoredAt(store, headers, |headers| - 1);
      var tail := WriteBatch(headers);
      if first.block.parent != current {
        var deleted := Above(last.block.number, c);
        var writes;
        ghost var n, path;
        ok, writes, n, path := CrossLink(first.hash, c);
        if !ok {
          return;
        }
        FirstOnTop(store, first.hash, c[..n] + Reversed(path));
        ForkedIndex(tree, c, n, path, headers, deleted, writes, tail);
        canon := canon - deleted + writes + tail;
      } else {
        ParentIsCurrent(tree, store, first.hash, current, c);
        ExtendedIndex(c, headers, tail);
        canon := canon + tail;
      }
      current := last.hash;
      ok := true;
    }

    // WriteHeaders: stores the batch on top of a known parent. Counts from the first
    // header that was not known yet.
    method WriteHeaders(headers: seq<Header>) returns (ok: bool, inserted: nat)
      requires Contains(tree, store) && LinkedBatch(tree, headers)
      modifies this`store
      ensures ok <==> headers == [] || (headers[0].block.number > 0 &&
                        old(GetHeader(store, headers[0].block.parent, headers[0].block.number - 1)).Some?)
      ensures !ok ==> store == old(store) && inserted == 0
      ensures ok ==> Stored(store, headers) && Contains(tree, store) && Contains(store, old(store))
      ensures forall g :: g in store ==> g in old(store) || Listed(headers, g)
      ensures ok ==> inserted <= |headers|
      ensures ok ==> forall i :: 0 <= i < |headers| - inserted ==> headers[i].hash in old(store)
      ensures ok && inserted > 0 ==> headers[|headers| - inserted].hash !in old(store)
    {
      if headers == [] {
        return true, 0;
      }
      if headers[0].block.number == 0 || GetHeader(store, headers[0].block.parent, headers[0].block.number - 1).None? {
        return false, 0;
      }
      var batch: Store, parentKnown := store, true;
      inserted := 0;
      for i := 0 to |headers|
        invariant store == old(store) && Contains(tree, batch) && Contains(batch, store)
        invariant forall k :: 0 <= k < i ==> headers[k].hash in batch
        invariant forall g :: g in batch ==> g in store || Listed(headers, g)
        invariant inserted <= i && (parentKnown <==> inserted == 0)
        invariant forall k :: 0 <= k < i - inserted ==> headers[k].hash in store
        invariant inserted > 0 ==> headers[i - inserted].hash !in store
      {
        var hash := if i < |headers| - 1 then headers[i + 1].block.parent else headers[i].hash;
        assert hash == headers[i].hash;
        var alreadyKnown := parentKnown && GetHeader(store, hash, headers[i].block.number).Some?;
        if !alreadyKnown {
          batch := batch[hash := headers[i].block];
          inserted := inserted + 1;
        }
        parentKnown := alreadyKnown;
      }
      store := batch;
      ok := true;
    }

    // writeHeadersAndSetHead: stores the batch, then makes its last header the current one
    // unless that header is canonical already.
    method WriteHeadersAndSetHead(headers: seq<Header>) returns (status: WriteStatus, imported: nat, ignored: nat)
      requires Valid() && headers != [] && LinkedBatch(tree, headers)
      modifies this
      ensures Valid()
      ensures Contains(store, old(store)) && forall g :: g in store ==> g in old(store) || Listed(headers, g)
      ensures status == Canonical ==> current == headers[|headers| - 1].hash
      ensures status != Canonical ==> current == old(current) && canon == old(canon)
      ensures var first, last := headers[0].block, headers[|headers| - 1];
              if first.number == 0 || old(GetHeader(store, first.parent, first.number - 1)).None?
              then status == UnknownAncestor && store == old(store)
              else
                && Stored(store, headers) && imported + ignored == |headers|
                && (forall i :: 0 <= i < ignored ==> headers[i].hash in old(store))
                && (imported > 0 ==> headers[ignored].hash !in old(store))
                && status == (if IsCanonical(old(canon), last.hash, last.block.number) && last.block.number <= old(store[current]).number then NotNew
                              else if Ancestry(store, last.hash, last.block.number).None? then MissingParent
                              else Canonical)
    {
      ghost var before := store;
      ghost var a := Ancestry(store, current, store[current].number).value;
      var ok;
      ok, imported := WriteHeaders(headers);
      if !ok {
        return UnknownAncestor, 0, 0;
      }
      ignored := |headers| - imported;
      AncestryMonotone(before, store, current, before[current].number);
      hide Ancestry, CanonOf, LinkedBatch, Linked, Contains, Stored;
      var last := headers[|headers| - 1];
      if IsCanonical(canon, last.hash, last.block.number) && last.block.number <= store[current].number {
        return NotNew, imported, ignored;
      }
      ok := Reorg(headers);
      status := if ok then Canonical else MissingParent;
    }

    // GetAncestor: steps down header by header until it meets the canonical chain, and
    // from there reads the number index. Fails exactly below genesis, on a missing header,
    // or when the budget is smaller than the number of side steps.
    method GetAncestor(hash: Hash, number: nat, ancestor: nat, maxNonCanonical: nat)
      returns (r: Option<Hash>, n: nat, left: nat)
      requires Valid()
      ensures ancestor > number ==> r.None?
      ensures ancestor <= number ==>
                (r.Some? <==> Up(store, hash, number, ancestor).Some? &&
                              (ancestor == 1 || SideSteps(store, canon, hash, number, ancestor) <= maxNonCanonical))
      ensures r.Some? ==> ancestor <= number && r == Up(store, hash, number, ancestor) && n == number - ancestor
      ensures r.Some? ==> left + (if ancestor == 1 then 0 else SideSteps(store, canon, hash, number, ancestor)) == maxNonCanonical
      ensures r.None? ==> n == 0
    {
      left := maxNonCanonical;
      if ancestor > number {
        return None, 0, left;
      }
      if ancestor == 1 {
        var header := GetHeader(store, hash, number);
        if header.Some? {
          return Some(header.value.parent), number - 1, left;
        }
        return None, 0, left;
      }
      ghost var c := Ancestry(store, current, store[current].number).value;
      AncestryIsChain(store, current, store[current].number);
      var h, m, k := hash, number, ancestor;
      while k != 0
        invariant k <= m && m - k == number - ancestor
        invariant Up(store, h, m, k) == Up(store, hash, number, ancestor)
        invariant SideSteps(store, canon, h, m, k) - left == SideSteps(store, canon, hash, number, ancestor) - maxNonCanonical
      {
        if IsCanonical(canon, h, m) {
          UpOnChain(store, c, m, k);
          return Some(canon[m - k]), m - k, left;
        }
        if left == 0 {
          return None, 0, left;
        }
        left := left - 1;
        var header := GetHeader(store, h, m);
        if header.None? {
          return None, 0, left;
        }
        h, m, k := header.value.parent, m - 1, k - 1;
      }
      r, n := Some(h), m;
    }

    constructor (ghost tree: Store, genesis: Hash, block: Block)
      requires Linked(tree) && genesis in tree && tree[genesis] == block && block.number == 0
      ensures Valid() && current == genesis && this.tree == tree
    {
      this.tree := tree;
      store := map[genesis := block];
      canon := map[0 := genesis];
      current := genesis;
    }

    // The batch itself; each hash is taken from the parent field of the next header.
    method WriteBatch(headers: seq<Header>) returns (batch: map<nat, Hash>)
      requires headers != [] && LinkedBatch(tree, headers)
      ensures WritesBatch(batch, headers, |headers|)
    {
      hide WritesBatch, LinkedBatch;
      batch := map[];
      NothingWritten(headers);
      for i := 0 to |headers| - 1
        invariant WritesBatch(batch, headers, i)
      {
        BatchNumber(tree, headers, i);
        NextParent(tree, headers, i);
        WriteOne(batch, headers, i);
        batch := batch[headers[i].block.number := headers[i + 1].block.parent];
      }
      var last := headers[|headers| - 1];
      BatchNumber(tree, headers, |headers| - 1);
      WriteOne(batch, headers, |headers| - 1);
      batch := batch[last.block.number := last.hash];
    }
  }

  lemma StoredAt(store: Store, headers: seq<Header>, i: nat)
    requires Stored(store, headers) && i < |headers|
    ensures headers[i].hash in store && store[headers[i].hash] == headers[i].block
  {
  }

  lemma NothingWritten(headers: seq<Header>)
    requires headers != []
    ensures WritesBatch(map[], headers, 0)
  {
  }

  lemma NextParent(tree: Store, headers: seq<Header>, i: nat)
    requires LinkedBatch(tree, headers) && i + 1 < |headers|
    ensures headers[i + 1].block.parent == headers[i].hash
  {
  }

  lemma {:induction false} BatchNumber(tree: Store, headers: seq<Header>, i: nat)
    requires LinkedBatch(tree, headers) && i < |headers|
    ensures headers[i].block.number == headers[0].block.number + i
  {
    if i > 0 {
      BatchNumber(tree, headers, i - 1);
    }
  }

  lemma FirstOnTop(store: Store, h: Hash, b: seq<Hash>)
    requires h in store && Ancestry(store, h, store[h].number) == Some(b)
    ensures |b| == store[h].number + 1 && b[store[h].number] == h
  {
    AncestryIsChain(store, h, store[h].number);
  }

  lemma ParentIsCurrent(tree: Store, store: Store, h: Hash, current: Hash, c: seq<Hash>)
    requires Linked(tree) && Contains(tree, store) && h in store && current in store && store[h].parent == current
    requires Ancestry(store, current, store[current].number) == Some(c)
    ensures |c| == store[h].number && Ancestry(store, h, store[h].number) == Some(c + [h])
  {
    AncestryIsChain(store, current, store[current].number);
  }

  // The batch applied to the pre-batch index, in the forking case.
  lemma ForkedIndex(tree: Store, c: seq<Hash>, n: nat, path: seq<Hash>, headers: seq<Header>, deleted: set<nat>,
                    writes: map<nat, Hash>, tail: map<nat, Hash>)
    requires headers != [] && LinkedBatch(tree, headers) && n <= |c|
    requires n + |path| == headers[0].block.number + 1
    requires forall k :: k in deleted <==> k in CanonOf(c) && k > headers[|headers| - 1].block.number
    requires WritesPath(writes, path, headers[0].block.number) && WritesBatch(tail, headers, |headers|)
    requires (c[..n] + Reversed(path))[headers[0].block.number] == headers[0].hash
    ensures CanonOf(c) - deleted + writes + tail == CanonOf(c[..n] + Reversed(path) + Hashes(headers[1..]))
  {
    hide LinkedBatch;
    var f := headers[0].block.number;
    var a := c[..n] + Reversed(path);
    var b := a + Hashes(headers[1..]);
    BatchNumber(tree, headers, |headers| - 1);
    var got := CanonOf(c) - deleted + writes + tail;
    assert |b| == f + |headers|;
    forall k: nat | k < |b| ensures k in got && got[k] == b[k] {
      if k < n && k < f {
        assert b[k] == c[k];
      } else if k < f {
        assert b[k] == Reversed(path)[k - n];
      } else {
        assert k == f || b[k] == headers[k - f].hash;
      }
    }
    assert forall k :: k in got ==> k < |b|;
  }

  lemma ExtendedIndex(c: seq<Hash>, headers: seq<Header>, tail: map<nat, Hash>)
    requires headers != [] && |c| == headers[0].block.number && WritesBatch(tail, headers, |headers|)
    ensures CanonOf(c) + tail == CanonOf(c + [headers[0].hash] + Hashes(headers[1..]))
  {
    var b := c + [headers[0].hash] + Hashes(headers[1..]);
    assert b == c + Hashes(headers);
  }

  // No cross link down to number 0: the path itself is the whole ancestry.
  lemma RootReached(store: Store, first: Hash, cur: Hash, path: seq<Hash>, c: seq<Hash>)
    requires first in store && Walked(store, first, cur, 0, path)
    ensures Ancestry(store, first, store[first].number) == Some(c[..0] + Reversed(path + [cur]))
  {
    assert c[..0] + Reversed(path + [cur]) == [cur] + Reversed(path);
  }
}
