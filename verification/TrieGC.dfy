// The trie garbage collection of core/blockchain.go: every written state root is
// referenced once and queued by block number, and dereferenced when it leaves the
// retention window.
module TrieGC {
  import opened Base

  type Root = nat

  datatype Entry = Entry(root: Root, number: nat)

  ghost function Roots(q: seq<Entry>): multiset<Root> {
    if q == [] then multiset{} else multiset{q[0].root} + Roots(q[1..])
  }

  lemma {:induction false} RootsConcat(a: seq<Entry>, b: seq<Entry>)
    ensures Roots(a + b) == Roots(a) + Roots(b)
  {
    if a == [] {
      assert a + b == b;
    } else {
      assert (a + b)[1..] == a[1..] + b;
      RootsConcat(a[1..], b);
    }
  }

  lemma {:induction false} RootsWithout(q: seq<Entry>, i: nat)
    requires i < |q|
    ensures Roots(q) == Roots(RemoveAt(q, i)) + multiset{q[i].root}
  {
    if i == 0 {
      assert RemoveAt(q, 0) == q[1..];
    } else {
      assert RemoveAt(q, i)[1..] == RemoveAt(q[1..], i - 1);
      RootsWithout(q[1..], i - 1);
    }
  }

  lemma RootsSnoc(q: seq<Entry>, e: Entry)
    ensures Roots(q + [e]) == Roots(q) + multiset{e.root}
  {
    RootsConcat(q, [e]);
    assert [e][1..] == [];
  }

  // The entries of q above number c, as a multiset.
  ghost predicate KeepsAbove(q: seq<Entry>, all: seq<Entry>, c: int) {
    forall e: Entry :: multiset(q)[e] == if e.number > c then multiset(all)[e] else 0
  }

  // While collecting: nothing above c has been lost.
  ghost predicate KeepsOldest(q: seq<Entry>, all: seq<Entry>, c: int) {
    forall e: Entry :: e.number > c ==> multiset(q)[e] == multiset(all)[e]
  }

  lemma AllAbove(q: seq<Entry>, before: seq<Entry>, all: seq<Entry>, c: int, e: Entry)
    requires KeepsOldest(before, all, c) && multiset(q) == multiset(before) && e.number > c
    requires forall f :: f in multiset(before) ==> e.number <= f.number
    ensures KeepsAbove(q, all, c)
  {
  }

  lemma OneOut(before: seq<Entry>, q: seq<Entry>, all: seq<Entry>, c: int, e: Entry)
    requires KeepsOldest(before, all, c) && multiset(before) == multiset(q) + multiset{e} && e.number <= c
    ensures KeepsOldest(q, all, c)
  {
    forall f: Entry | f.number > c ensures multiset(q)[f] == multiset(all)[f] {
      assert multiset(before)[f] == (multiset(q) + multiset{e})[f];
    }
  }

  // ----- Which entries survive a sequence of blocks.

  // Writing block b releases what is `window` or more below it.
  ghost predicate Releases(b: Entry, e: Entry, window: nat) {
    b.number > window && e.number <= b.number - window
  }

  // Entry i of `all` is released by a block at or behind it; blocks start at position m.
  ghost predicate Released(all: seq<Entry>, m: nat, i: nat, window: nat)
    requires i < |all|
  {
    exists j :: m <= j < |all| && i <= j && Releases(all[j], all[i], window)
  }

  // How many of the first n entries are e and not released.
  ghost function Kept(all: seq<Entry>, m: nat, window: nat, e: Entry, n: nat): nat
    requires n <= |all|
  {
    if n == 0 then 0
    else Kept(all, m, window, e, n - 1) + (if all[n - 1] == e && !Released(all, m, n - 1, window) then 1 else 0)
  }

  lemma ReleasedByOneMore(all: seq<Entry>, m: nat, i: nat, window: nat, b: Entry)
    requires i < |all| && m <= |all|
    ensures Released(all + [b], m, i, window) <==> Released(all, m, i, window) || Releases(b, all[i], window)
  {
    var more := all + [b];
    if Released(all, m, i, window) {
      var j :| m <= j < |all| && i <= j && Releases(all[j], all[i], window);
      assert more[j] == all[j];
    }
    if Releases(b, all[i], window) {
      assert more[|all|] == b;
    }
  }

  lemma {:induction false} KeptByOneMore(all: seq<Entry>, m: nat, window: nat, b: Entry, e: Entry, n: nat)
    requires m <= |all| && n <= |all|
    ensures Kept(all + [b], m, window, e, n) == if Releases(b, e, window) then 0 else Kept(all, m, window, e, n)
  {
    hide Released, Releases;
    if n > 0 {
      KeptByOneMore(all, m, window, b, e, n - 1);
      ReleasedByOneMore(all, m, n - 1, window, b);
    }
  }

  lemma KeptAfter(all: seq<Entry>, m: nat, window: nat, b: Entry, e: Entry)
    requires m <= |all|
    ensures Kept(all + [b], m, window, e, |all| + 1) ==
              if Releases(b, e, window) then 0 else Kept(all, m, window, e, |all|) + (if b == e then 1 else 0)
  {
    KeptByOneMore(all, m, window, b, e, |all|);
    var more := all + [b];
    assert more[|all|] == b;
    assert Released(more, m, |all|, window) <==> Releases(b, b, window);
  }

  lemma {:induction false} KeptAtStart(all: seq<Entry>, window: nat, e: Entry, n: nat)
    requires n <= |all|
    ensures Kept(all, |all|, window, e, n) == multiset(all[..n])[e]
  {
    if n > 0 {
      KeptAtStart(all, window, e, n - 1);
      assert all[..n] == all[..n - 1] + [all[n - 1]];
    }
  }

  class Collector {
    const triesInMemory: nat
    var queue: seq<Entry>
    var referenced: multiset<Root>     // every Reference call so far
    var dereferenced: multiset<Root>   // every Dereference call so far

    // References not dropped yet and queue entries match one to one.
    ghost predicate Valid()
      reads this
    {
      referenced == dereferenced + Roots(queue)
    }

    constructor (triesInMemory: nat)
      ensures Valid() && queue == [] && referenced == multiset{} && this.triesInMemory == triesInMemory
    {
      this.triesInMemory, queue, referenced, dereferenced := triesInMemory, [], multiset{}, multiset{};
    }

    // Pop: removes an entry of the highest priority, that is, of the lowest number.
    method Pop() returns (e: Entry)
      requires queue != []
      modifies this`queue
      ensures multiset(old(queue)) == multiset(queue) + multiset{e} && |queue| == |old(queue)| - 1
      ensures Roots(old(queue)) == Roots(queue) + multiset{e.root}
      ensures forall f :: f in multiset(old(queue)) ==> e.number <= f.number
    {
      var best := 0;
      for i := 1 to |queue|
        invariant 0 <= best < |queue|
        invariant forall k :: 0 <= k < i ==> queue[best].number <= queue[k].number
      {
        if queue[i].number < queue[best].number {
          best := i;
        }
      }
      e := queue[best];
      RootsWithout(queue, best);
      assert queue[best] in multiset(queue);
      queue := RemoveAt(queue, best);
    }

    // The collection part of writeBlockWithState: reference and queue the new root, then
    // release everything that has left the window.
    method WriteBlock(root: Root, number: nat)
      requires Valid()
      modifies this
      ensures Valid() && referenced == old(referenced) + multiset{root}
      ensures KeepsAbove(queue, old(queue) + [Entry(root, number)],
                         if number <= triesInMemory then -1 else number - triesInMemory)
    {
      referenced := referenced + multiset{root};
      RootsSnoc(queue, Entry(root, number));
      queue := queue + [Entry(root, number)];
      if number <= triesInMemory {
        return;
      }
      Collect(number - triesInMemory);
    }

    method Collect(chosen: nat)
      requires Valid()
      modifies this`queue, this`dereferenced
      ensures Valid() && KeepsAbove(queue, old(queue), chosen)
    {
      hide Roots;
      ghost var all := queue;
      while queue != []
        invariant Valid() && KeepsOldest(queue, all, chosen)
        decreases |queue|
      {
        ghost var before := queue;
        var e := Pop();
        if e.number > chosen {
          RootsSnoc(queue, e);
          queue := queue + [e];
          assert multiset(queue) == multiset(before);
          AllAbove(queue, before, all, chosen, e);
          return;
        }
        OneOut(before, queue, all, chosen, e);
        dereferenced := dereferenced + multiset{e.root};
      }
    }

    // Stop: drops every remaining reference.
    method Stop()
      requires Valid()
      modifies this`queue, this`dereferenced
      ensures queue == [] && dereferenced == referenced
    {
      while queue != []
        invariant Valid()
        decreases |queue|
      {
        var e := Pop();
        dereferenced := dereferenced + multiset{e.root};
      }
    }

    // After any sequence of blocks exactly those roots are still held that no later block
    // has left behind, each as often as it was written.
    method WriteBlocks(blocks: seq<Entry>)
      requires Valid()
      modifies this
      ensures Valid() && referenced == old(referenced) + Roots(blocks)
      ensures forall e: Entry :: multiset(queue)[e] ==
                Kept(old(queue) + blocks, |old(queue)|, triesInMemory, e, |old(queue) + blocks|)
    {
      hide Valid, Roots, KeepsAbove, Kept;
      ghost var start := queue;
      NothingYet(start);
      for i := 0 to |blocks|
        invariant Valid() && referenced == old(referenced) + Roots(blocks[..i])
        invariant forall e: Entry :: multiset(queue)[e] ==
                    Kept(start + blocks[..i], |start|, triesInMemory, e, |start + blocks[..i]|)
      {
        ghost var before := queue;
        assert blocks[..i + 1] == blocks[..i] + [blocks[i]];
        assert start + blocks[..i + 1] == (start + blocks[..i]) + [blocks[i]];
        RootsSnoc(blocks[..i], blocks[i]);
        WriteBlock(blocks[i].root, blocks[i].number);
        KeptNext(queue, before, blocks[i], start + blocks[..i], |start|);
      }
      assert blocks[..|blocks|] == blocks;
    }

    lemma NothingYet(start: seq<Entry>)
      ensures Roots([]) == multiset{}
      ensures forall e: Entry :: multiset(start)[e] == Kept(start + [], |start|, triesInMemory, e, |start + []|)
    {
      assert start + [] == start && start[..|start|] == start;
      forall e: Entry ensures multiset(start)[e] == Kept(start, |start|, triesInMemory, e, |start|) {
        KeptAtStart(start, triesInMemory, e, |start|);
      }
    }

    lemma KeptNext(q: seq<Entry>, before: seq<Entry>, b: Entry, all: seq<Entry>, m: nat)
      requires m <= |all| && forall e: Entry :: multiset(before)[e] == Kept(all, m, triesInMemory, e, |all|)
      requires KeepsAbove(q, before + [b], if b.number <= triesInMemory then -1 else b.number - triesInMemory)
      ensures forall e: Entry :: multiset(q)[e] == Kept(all + [b], m, triesInMemory, e, |all + [b]|)
    {
      hide Kept;
      forall e: Entry ensures multiset(q)[e] == Kept(all + [b], m, triesInMemory, e, |all + [b]|) {
        KeptAfter(all, m, triesInMemory, b, e);
        assert multiset(before + [b])[e] == multiset(before)[e] + (if b == e then 1 else 0);
      }
    }

    // Any sequence of written blocks followed by Stop drops every reference it took.
    method Run(blocks: seq<Entry>)
      requires Valid()
      modifies this
      ensures queue == [] && referenced == old(referenced) + Roots(blocks) && dereferenced == referenced
    {
      WriteBlocks(blocks);
      Stop();
    }
  }
}
