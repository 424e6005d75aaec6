// The transaction index window of core/txindexer.go: which blocks have their transactions
// in the lookup table, and where the window starts.
module TxIndexer {
  import opened Base

  datatype Progress = Progress(indexed: nat, remaining: nat)

  // The first block of the configured window: the last `limit` blocks (all, for 0), but
  // nothing below the cutoff.
  function WindowStart(limit: nat, cutoff: nat, head: nat): (start: nat) {
    Max(if limit != 0 && head >= limit then head - limit + 1 else 0, cutoff)
  }

  // report: how far the index is, for a head and a stored tail, in uint64 arithmetic.
  function Report(limit: U64, cutoff: U64, head: U64, tail: Option<U64>): (r: Progress) {
    if head < cutoff then Progress(0, 0)
    else
      var wanted := if limit == 0 || limit > head then (head + 1) % TWO_64 else limit;
      var total := Min(wanted, (head - cutoff + 1) % TWO_64);
      var indexed := if tail.Some? then (head - tail.value + 1) % TWO_64 else 0;
      Progress(indexed, if indexed < total then total - indexed else 0)
  }

  // Up to the head's successor the report counts the blocks from the tail on, and nothing
  // remains exactly when the tail has come down to the window start. A tail left above
  // that by a rewind makes the count wrap.
  lemma ReportMeaning(limit: U64, cutoff: U64, head: U64, tail: U64)
    requires cutoff <= head < TWO_64 - 1
    ensures var r, start := Report(limit, cutoff, head, Some(tail)), WindowStart(limit, cutoff, head);
            && (r.indexed == (if tail <= head then head - tail + 1 else 0) <==> tail <= head + 1)
            && (tail <= head + 1 ==> (r.remaining == 0 <==> tail <= start))
            && (start <= tail <= head + 1 ==> r.indexed + r.remaining == head - start + 1)
            && (tail > head + 1 ==> r.indexed == TWO_64 - (tail - head - 1))
  {
    if tail > head + 1 {
      assert (head - tail + 1) % TWO_64 == head - tail + 1 + TWO_64;
    }
  }

  // Below the cutoff there is nothing to index; with no tail yet the whole window remains. A
  // full uint64 of blocks counts as none.
  lemma ReportWithoutTail(limit: U64, cutoff: U64, head: U64, tail: Option<U64>)
    ensures head < cutoff ==> Report(limit, cutoff, head, tail) == Progress(0, 0)
    ensures head >= cutoff ==>
              var all := head == TWO_64 - 1 && (limit == 0 || cutoff == 0);
              Report(limit, cutoff, head, None) == Progress(0, if all then 0 else head - WindowStart(limit, cutoff, head) + 1)
  {
  }

  lemma ReportAtWindow(limit: nat, cutoff: nat, head: nat)
    requires cutoff <= head < TWO_64 - 1 && limit < TWO_64
    ensures var start := WindowStart(limit, cutoff, head);
            start <= head && Report(limit, cutoff, head, Some(start)) == Progress(head - start + 1, 0)
  {
    ReportMeaning(limit, cutoff, head, WindowStart(limit, cutoff, head));
  }

  // iterateTransactions: several readers deliver the blocks of a range in any order; after
  // an interrupt or an undecodable body some may be missing.
  method IterateTransactions(from: nat, to: nat, interrupt: bool) returns (numbers: seq<nat>)
    ensures Distinct(numbers) && forall k :: k in numbers ==> from <= k < to
    ensures !interrupt ==> forall k :: from <= k < to ==> k in numbers
  {
    numbers := [];
    var rest: set<nat> := {};
    for k := from to Max(from, to)
      invariant forall i: nat :: i in rest <==> from <= i < k
    {
      rest := rest + {k};
    }
    while rest != {}
      invariant Distinct(numbers) && forall k :: k in numbers ==> from <= k < to && k !in rest
      invariant forall k: nat :: from <= k < to ==> k in rest || k in numbers
    {
      if interrupt {
        if * {
          return;
        }
      }
      var k :| k in rest;
      numbers, rest := numbers + [k], rest - {k};
    }
  }

  // Of the delivered blocks, those of low..high-1 are processed, the others wait.
  ghost predicate Received(queue: set<nat>, low: nat, high: nat, delivered: seq<nat>) {
    && (forall k: nat :: k in delivered <==> k in queue || low <= k < high)
    && (forall k: nat :: k in queue ==> !(low <= k < high))
  }

  lemma Receive(queue: set<nat>, low: nat, high: nat, numbers: seq<nat>, d: nat)
    requires d < |numbers| && Distinct(numbers) && Received(queue, low, high, numbers[..d])
    ensures Received(queue + {numbers[d]}, low, high, numbers[..d + 1])
  {
    assert numbers[..d + 1] == numbers[..d] + [numbers[d]];
    assert numbers[d] !in numbers[..d];
  }

  class Indexer {
    const limit: nat
    const cutoff: nat
    var tail: Option<nat>     // first indexed block, as stored in the database
    var indexed: set<nat>     // blocks whose transactions are in the table

    constructor (limit: nat, cutoff: nat)
      ensures this.limit == limit && this.cutoff == cutoff && tail == None && indexed == {}
    {
      this.limit, this.cutoff, tail, indexed := limit, cutoff, None, {};
    }

    // The table holds exactly the blocks from the tail to the head.
    ghost predicate Tracks(head: nat)
      reads this
    {
      match tail
      case None => indexed == {}
      case Some(t) => forall k: nat :: k in indexed <==> t <= k <= head
    }

    // A repaired tail: absent, or between cutoff and head.
    ghost predicate InBounds(head: nat)
      reads this
    {
      tail.Some? ==> cutoff <= tail.value <= head
    }

    // writeHeadBlock stores the lookups of every imported block, whatever the tail.
    method Import(number: nat)
      modifies this`indexed
      ensures indexed == old(indexed) + {number}
      ensures forall head: nat :: old(Tracks(head)) && tail.Some? && tail.value <= number == head + 1 ==> Tracks(number)
    {
      indexed := indexed + {number};
    }

    // repair: drops the index, or its part below the cutoff, when it does not fit the chain.
    // An absent tail is left alone, with whatever the table holds.
    method Repair(head: nat)
      modifies this`tail, this`indexed
      ensures InBounds(head)
      ensures old(InBounds(head)) ==> tail == old(tail) && indexed == old(indexed)
      ensures tail.None? <==> old(tail).None? || old(tail).value > head || head < cutoff
      ensures old(tail).Some? && tail.None? ==> indexed == {}
      ensures tail.Some? ==> tail == Some(Max(old(tail).value, cutoff))
      ensures tail.Some? && tail != old(tail) ==> forall k: nat :: k in indexed <==> k in old(indexed) && cutoff <= k
      ensures old(Tracks(head)) ==> Tracks(head)
    {
      if tail.None? {
        return;
      }
      if tail.value > head {
        tail, indexed := None, {};
        return;
      }
      if head < cutoff {
        tail, indexed := None, {};
        return;
      }
      if tail.value < cutoff {
        tail := Some(cutoff);
        indexed := set k | k in indexed && !(k < cutoff);
      }
    }

    // What an indexing of the blocks below `to` has written when it has come down to `low`.
    ghost predicate Added(was: set<nat>, wasTail: Option<nat>, low: nat, to: nat)
      reads this
    {
      && (forall k: nat :: k in indexed <==> k in was || low <= k < to)
      && (tail == Some(low) || (low == to && tail == wasTail))
    }

    // What an unindexing of the blocks from `from` on has written when it has come up to `high`.
    ghost predicate Removed(was: set<nat>, wasTail: Option<nat>, from: nat, high: nat)
      reads this
    {
      && (forall k: nat :: k in indexed <==> k in was && !(from <= k < high))
      && (tail == Some(high) || (high == from && tail == wasTail))
    }

    // Flushes a batch of lookups together with the tail it leads to.
    method WriteAdded(batch: set<nat>, low: nat, ghost was: set<nat>, ghost wasTail: Option<nat>, ghost reached: nat, ghost to: nat)
      requires Added(was, wasTail, reached, to) && low <= reached <= to
      requires forall k: nat :: k in batch <==> low <= k < reached
      modifies this`tail, this`indexed
      ensures Added(was, wasTail, low, to) && tail == Some(low)
    {
      indexed, tail := indexed + batch, Some(low);
    }

    method WriteRemoved(batch: set<nat>, high: nat, ghost was: set<nat>, ghost wasTail: Option<nat>, ghost from: nat, ghost reached: nat)
      requires Removed(was, wasTail, from, reached) && from <= reached <= high
      requires forall k: nat :: k in batch <==> reached <= k < high
      modifies this`tail, this`indexed
      ensures Removed(was, wasTail, from, high) && tail == Some(high)
    {
      indexed, tail := indexed - batch, Some(high);
    }

    // IndexTransactions: the blocks of `numbers`, as the readers deliver them. Contiguous
    // ones below `to` are indexed newest first in batches; every batch carries its own tail.
    // `reached` is the lowest block on disk. With `crash` the process may die anywhere.
    method Index(from: nat, to: nat, numbers: seq<nat>, crash: bool) returns (ghost reached: nat)
      requires Distinct(numbers) && forall k :: k in numbers ==> from <= k < to
      modifies this`tail, this`indexed
      ensures from >= to ==> reached == to && tail == old(tail)
      ensures from < to ==> from <= reached <= to
      ensures Added(old(indexed), old(tail), reached, to)
      ensures from < to && !crash ==>
                && tail == Some(reached) && (forall k :: reached <= k < to ==> k in numbers)
                && (reached > from ==> reached - 1 !in numbers)
    {
      reached := to;
      if from >= to {
        return;
      }
      hide Added, Distinct;
      var lastNum := to;
      var queue: set<nat>, batch: set<nat> := {}, {};
      for d := 0 to |numbers|
        invariant from <= lastNum <= reached <= to && Added(old(indexed), old(tail), reached, to)
        invariant forall k: nat :: k in batch <==> lastNum <= k < reached
        invariant Received(queue, lastNum, to, numbers[..d]) && lastNum - 1 !in queue
      {
        if crash {
          if * {
            return;
          }
        }
        Receive(queue, lastNum, to, numbers, d);
        queue := queue + {numbers[d]};
        while lastNum > 0 && lastNum - 1 in queue
          invariant from <= lastNum <= reached <= to && Added(old(indexed), old(tail), reached, to)
          invariant forall k: nat :: k in batch <==> lastNum <= k < reached
          invariant Received(queue, lastNum, to, numbers[..d + 1])
        {
          lastNum := lastNum - 1;
          assert lastNum in numbers[..d + 1] && lastNum in numbers;
          queue, batch := queue - {lastNum}, batch + {lastNum};
          if * {
            WriteAdded(batch, lastNum, old(indexed), old(tail), reached, to);
            batch, reached := {}, lastNum;
          }
          if crash {
            if * {
              return;
            }
          }
        }
      }
      assert numbers[..|numbers|] == numbers;
      WriteAdded(batch, lastNum, old(indexed), old(tail), reached, to);
      reached := lastNum;
    }

    // UnindexTransactions: the same upwards from `from`.
    method Unindex(from: nat, to: nat, numbers: seq<nat>, crash: bool) returns (ghost reached: nat)
      requires Distinct(numbers) && forall k :: k in numbers ==> from <= k < to
      modifies this`tail, this`indexed
      ensures from >= to ==> reached == from && tail == old(tail)
      ensures from < to ==> from <= reached <= to
      ensures Removed(old(indexed), old(tail), from, reached)
      ensures from < to && !crash ==>
                && tail == Some(reached) && (forall k :: from <= k < reached ==> k in numbers)
                && (reached < to ==> reached !in numbers)
    {
      reached := from;
      if from >= to {
        return;
      }
      hide Removed, Distinct;
      var nextNum := from;
      var queue: set<nat>, batch: set<nat> := {}, {};
      for d := 0 to |numbers|
        invariant from <= reached <= nextNum <= to && Removed(old(indexed), old(tail), from, reached)
        invariant forall k: nat :: k in batch <==> reached <= k < nextNum
        invariant Received(queue, from, nextNum, numbers[..d]) && nextNum !in queue
      {
        if crash {
          if * {
            return;
          }
        }
        Receive(queue, from, nextNum, numbers, d);
        queue := queue + {numbers[d]};
        while nextNum in queue
          invariant from <= reached <= nextNum <= to && Removed(old(indexed), old(tail), from, reached)
          invariant forall k: nat :: k in batch <==> reached <= k < nextNum
          invariant Received(queue, from, nextNum, numbers[..d + 1])
          decreases (to - nextNum)
        {
          assert nextNum in numbers[..d + 1] && nextNum in numbers;
          queue, batch := queue - {nextNum}, batch + {nextNum};
          nextNum := nextNum + 1;
          if * {
            WriteRemoved(batch, nextNum, old(indexed), old(tail), from, reached);
            batch, reached := {}, nextNum;
          }
          if crash {
            if * {
              return;
            }
          }
        }
      }
      assert numbers[..|numbers|] == numbers;
      WriteRemoved(batch, nextNum, old(indexed), old(tail), from, reached);
      reached := nextNum;
    }

    // run. Uninterrupted, the tail is the window start afterwards, the missing blocks of the
    // window are indexed and those between an old tail and the window are dropped. Cut short
    // by an interrupt or a crash, a table that agreed with its tail still does.
    method Run(head: nat, interrupt: bool, crash: bool)
      requires InBounds(head)
      modifies this`tail, this`indexed
      ensures tail.Some? ==> cutoff <= tail.value <= head + 1
      ensures old(tail).Some? ==> InBounds(head)
      ensures old(Tracks(head)) ==> Tracks(head)
      ensures head == 0 || head < cutoff ==> tail == old(tail) && indexed == old(indexed)
      ensures head > 0 && head >= cutoff && !interrupt && !crash ==>
                var start := WindowStart(limit, cutoff, head);
                && tail == Some(start) && InBounds(head)
                && (forall k: nat :: k in indexed <==>
                      || (k in old(indexed) && !(old(tail).Some? && old(tail).value <= k < start))
                      || start <= k < (if old(tail).Some? then old(tail).value else head + 1))
                && (head < TWO_64 - 1 && limit < TWO_64 ==> Report(limit, cutoff, head, tail) == Progress(head - start + 1, 0))
      // A first run makes the table the window exactly when it held nothing outside.
      ensures head > 0 && head >= cutoff && !interrupt && !crash && old(tail).None? ==>
                (Tracks(head) <==> forall k :: k in old(indexed) ==> WindowStart(limit, cutoff, head) <= k <= head)
    {
      hide Report;
      if head == 0 || head < cutoff {
        return;
      }
      if head < TWO_64 - 1 && limit < TWO_64 {
        ReportAtWindow(limit, cutoff, head);
      }
      ghost var reached;
      if tail.None? {
        var from := 0;
        if limit != 0 && head >= limit {
          from := head - limit + 1;
        }
        from := Max(from, cutoff);
        var numbers := IterateTransactions(from, head + 1, interrupt);
        reached := Index(from, head + 1, numbers, crash);
        return;
      }
      if limit == 0 || head < limit {
        if tail.value > 0 {
          var from := Max(0, cutoff);
          var numbers := IterateTransactions(from, tail.value, interrupt);
          reached := Index(from, tail.value, numbers, crash);
        }
        return;
      }
      var from := Max(head - limit + 1, cutoff);
      if from < tail.value {
        var numbers := IterateTransactions(from, tail.value, interrupt);
        reached := Index(from, tail.value, numbers, crash);
      } else {
        var numbers := IterateTransactions(tail.value, from, interrupt);
        reached := Unindex(tail.value, from, numbers, crash);
      }
    }

    // However often the indexer is cut short and started again on the same head, one run
    // that comes through leaves the tail at the window start, and a table that agreed with
    // its tail at the beginning is exactly the window.
    method Restarts(head: nat, cuts: nat)
      requires 0 < head && cutoff <= head
      modifies this`tail, this`indexed
      ensures tail == Some(WindowStart(limit, cutoff, head)) && InBounds(head)
      ensures old(Tracks(head)) ==> Tracks(head)
    {
      for i := 0 to cuts
        invariant old(Tracks(head)) ==> Tracks(head)
      {
        Repair(head);
        Run(head, true, true);
      }
      Repair(head);
      Run(head, false, false);
    }
  }

  // Six blocks imported before the first run, a window of two: the tail says 4, but the
  // lookups of the blocks below stay.
  method FirstRunLeavesEntries() returns (ix: Indexer)
    ensures ix.tail == Some(4) && ix.indexed == {0, 1, 2, 3, 4, 5} && !ix.Tracks(5)
  {
    ix := new Indexer(2, 0);
    for k := 0 to 6
      invariant ix.tail.None? && forall i: nat :: i in ix.indexed <==> i < k
    {
      ix.Import(k);
    }
    ix.Run(5, false, false);
    assert 0 in ix.indexed;
  }
}
