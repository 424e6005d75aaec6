// The log numbering of a block run in waves: the shared state numbers logs in wave order,
// and that is the numbering of the block exactly when the waves keep its logs in order.
module LogIndices {
  import opened Base
  import opened Execution
  import opened WaveScheduler
  import opened WavePool
  import opened Processor
  import opened BlockProcess

  ghost predicate HasLogs(b: Block, s0: State, i: nat) {
    VerdictLogs(b, s0, i) != []
  }

  // Every transaction with logs begins where the in-order run of the block would number it.
  ghost predicate Canonical(b: Block, s0: State, from: nat, starts: map<nat, nat>) {
    forall i :: 0 <= i < |b.txs| && HasLogs(b, s0, i) ==> i in starts && starts[i] == from + |LogsBefore(b, s0, i)|
  }

  // Of the transactions with logs, no earlier wave holds a later one.
  ghost predicate WavesKeepLogOrder(b: Block, s0: State, groups: seq<seq<nat>>) {
    forall v, w, i, j :: 0 <= v < w < |groups| && i in groups[v] && j in groups[w] ==>
      HasLogs(b, s0, i) && HasLogs(b, s0, j) ==> i < j
  }

  // ----- Log counts by transaction.

  ghost function LogCounts(b: Block, s0: State, done: set<nat>): seq<nat> {
    seq(|b.txs|, i requires 0 <= i < |b.txs| => if i in done then |VerdictLogs(b, s0, i)| else 0)
  }

  lemma LogCountsAdd(b: Block, s0: State, done: set<nat>, i: nat)
    requires i < |b.txs| && i !in done
    ensures Sum(LogCounts(b, s0, done + {i})) == Sum(LogCounts(b, s0, done)) + |VerdictLogs(b, s0, i)|
  {
    hide VerdictLogs;
    var counts := LogCounts(b, s0, done);
    assert LogCounts(b, s0, done + {i}) == counts[i := |VerdictLogs(b, s0, i)|];
    SumUpdate(counts, i, |VerdictLogs(b, s0, i)|);
  }

  lemma {:induction false} TotalIsSum(b: Block, s0: State, order: seq<nat>)
    requires Distinct(order) && forall k :: 0 <= k < |order| ==> order[k] < |b.txs|
    ensures LogTotal(b, s0, order) == Sum(LogCounts(b, s0, Elems(order)))
    decreases |order|
  {
    hide VerdictLogs;
    if order == [] {
      SumOfZeros(LogCounts(b, s0, Elems(order)));
    } else {
      var init, last := order[..|order| - 1], order[|order| - 1];
      TotalIsSum(b, s0, init);
      assert order == init + [last];
      assert last !in Elems(init);
      assert Elems(order) == Elems(init) + {last};
      LogCountsAdd(b, s0, Elems(init), last);
    }
  }

  lemma {:induction false} BeforeIsSum(b: Block, s0: State, p: nat)
    requires p <= |b.txs|
    ensures |LogsBefore(b, s0, p)| == Sum(LogCounts(b, s0, IndexSet(p)))
  {
    hide VerdictLogs;
    if p == 0 {
      SumOfZeros(LogCounts(b, s0, IndexSet(0)));
    } else {
      BeforeIsSum(b, s0, p - 1);
      assert IndexSet(p) == IndexSet(p - 1) + {p - 1};
      LogCountsAdd(b, s0, IndexSet(p - 1), p - 1);
    }
  }

  lemma {:induction false} BeforeGrows(b: Block, s0: State, p: nat, q: nat)
    requires p <= q <= |b.txs|
    ensures |LogsBefore(b, s0, p)| <= |LogsBefore(b, s0, q)|
  {
    if p < q {
      BeforeGrows(b, s0, p, q - 1);
    }
  }

  lemma {:induction false} TotalGrows(b: Block, s0: State, order: seq<nat>, p: nat, q: nat)
    requires p <= q <= |order|
    ensures LogTotal(b, s0, order[..p]) <= LogTotal(b, s0, order[..q])
  {
    hide VerdictLogs;
    if p < q {
      TotalGrows(b, s0, order, p, q - 1);
      assert order[..q][..q - 1] == order[..q - 1];
    }
  }

  // ----- Positions in wave order.

  ghost predicate Precedes(decl: seq<set<Address>>, groups: seq<seq<nat>>, i: nat, j: nat)
    requires OrderRespecting(decl, groups) && i < |decl| && j < |decl|
  {
    var v, w := WaveOf(decl, groups, i), WaveOf(decl, groups, j);
    v < w || (v == w && i < j)
  }

  lemma OnlyWave(decl: seq<set<Address>>, groups: seq<seq<nat>>, w: nat, i: nat)
    requires OrderRespecting(decl, groups) && w < |groups| && i in groups[w]
    ensures i < |decl| && WaveOf(decl, groups, i) == w
  {
  }

  ghost predicate Sorted(decl: seq<set<Address>>, groups: seq<seq<nat>>, w: nat, order: seq<nat>)
    requires OrderRespecting(decl, groups)
  {
    && (forall k :: 0 <= k < |order| ==> order[k] < |decl| && WaveOf(decl, groups, order[k]) < w)
    && (forall k, m :: 0 <= k < m < |order| ==> Precedes(decl, groups, order[k], order[m]))
  }

  // Wave order runs through the waves one after the other, ascending in each.
  lemma {:induction false} WaveOrderSorted(decl: seq<set<Address>>, groups: seq<seq<nat>>, w: nat)
    requires OrderRespecting(decl, groups) && w <= |groups|
    ensures Sorted(decl, groups, w, InWaveOrder(groups, w))
  {
    hide OrderRespecting;
    if w > 0 {
      WaveOrderSorted(decl, groups, w - 1);
      var before, order, wave := InWaveOrder(groups, w - 1), InWaveOrder(groups, w), groups[w - 1];
      WaveAscending(decl, groups, w - 1);
      assert order == before + wave;
      hide InWaveOrder;
      forall k | 0 <= k < |order|
        ensures order[k] < |decl| && (if k < |before| then order[k] == before[k] else WaveOf(decl, groups, order[k]) == w - 1)
      {
        if k >= |before| {
          assert order[k] == wave[k - |before|] && order[k] in wave;
          OnlyWave(decl, groups, w - 1, order[k]);
        }
      }
      forall k, m | 0 <= k < m < |order| ensures Precedes(decl, groups, order[k], order[m]) {
        if m < |before| {
          assert Precedes(decl, groups, before[k], before[m]);
        } else if k >= |before| {
          assert wave[k - |before|] < wave[m - |before|];
        }
      }
    }
  }

  lemma WaveAscending(decl: seq<set<Address>>, groups: seq<seq<nat>>, w: nat)
    requires OrderRespecting(decl, groups) && w < |groups|
    ensures forall k, m :: 0 <= k < m < |groups[w]| ==> groups[w][k] < groups[w][m]
  {
    assert Ascending(groups[w]);
  }

  // A permutation of the block.
  lemma WaveOrderIsPermutation(b: Block, groups: seq<seq<nat>>)
    requires OrderRespecting(Decls(b), groups)
    ensures var order := InWaveOrder(groups, |groups|);
            && Distinct(order) && (forall k :: 0 <= k < |order| ==> order[k] < |b.txs|)
            && (forall i :: 0 <= i < |b.txs| ==> i in order)
  {
    WaveOrderSorted(Decls(b), groups, |groups|);
    InWaveOrderElems(groups, |groups|);
    ScheduleCoversAll(b, groups);
    hide OrderRespecting;
    var order := InWaveOrder(groups, |groups|);
    forall i | 0 <= i < |b.txs| ensures i in order {
      assert i in AllTxs(b);
      assert i in Elems(order);
    }
    forall k, m | 0 <= k < m < |order| ensures order[k] != order[m] {
      assert Precedes(Decls(b), groups, order[k], order[m]);
    }
  }

  // ----- The numbering.

  // Transaction i at position k begins after the logs of everything before it in wave order,
  // which is after those of the transactions below i if both sets have the same logs.
  lemma SameLogsBefore(b: Block, s0: State, order: seq<nat>, k: nat, i: nat)
    requires Distinct(order) && (forall m :: 0 <= m < |order| ==> order[m] < |b.txs|) && k < |order| && i <= |b.txs|
    requires forall j :: 0 <= j < |b.txs| && HasLogs(b, s0, j) ==> (j in order[..k] <==> j < i)
    ensures LogTotal(b, s0, order[..k]) == |LogsBefore(b, s0, i)|
  {
    hide VerdictLogs;
    var prefix := order[..k];
    TotalIsSum(b, s0, prefix);
    BeforeIsSum(b, s0, i);
    assert LogCounts(b, s0, Elems(prefix)) == LogCounts(b, s0, IndexSet(i));
  }

  lemma KeptOrderNumbers(b: Block, s0: State, from: nat, groups: seq<seq<nat>>, starts: map<nat, nat>, k: nat)
    requires OrderRespecting(Decls(b), groups) && WavesKeepLogOrder(b, s0, groups) && k < |InWaveOrder(groups, |groups|)|
    requires HasLogs(b, s0, InWaveOrder(groups, |groups|)[k])
    requires NumberedAt(b, s0, from, InWaveOrder(groups, |groups|), starts, k)
    ensures var i := InWaveOrder(groups, |groups|)[k];
            i < |b.txs| && i in starts && starts[i] == from + |LogsBefore(b, s0, i)|
  {
    var order := InWaveOrder(groups, |groups|);
    var i := order[k];
    WaveOrderIsPermutation(b, groups);
    WaveOrderSorted(Decls(b), groups, |groups|);
    hide OrderRespecting, VerdictLogs, InWaveOrder, LogTotal, LogsBefore;
    forall j | 0 <= j < |b.txs| && HasLogs(b, s0, j) ensures j in order[..k] <==> j < i {
      assert j in order;
      var m :| 0 <= m < |order| && order[m] == j;
      KeptOrder(b, s0, groups, order, k, m);
    }
    SameLogsBefore(b, s0, order, k, i);
  }

  lemma KeptOrder(b: Block, s0: State, groups: seq<seq<nat>>, order: seq<nat>, k: nat, m: nat)
    requires OrderRespecting(Decls(b), groups) && WavesKeepLogOrder(b, s0, groups) && Distinct(order)
    requires k < |order| && m < |order| && order[k] < |b.txs| && order[m] < |b.txs|
    requires HasLogs(b, s0, order[k]) && HasLogs(b, s0, order[m])
    requires forall x, y :: 0 <= x < y < |order| ==>
               order[x] < |b.txs| && order[y] < |b.txs| && Precedes(Decls(b), groups, order[x], order[y])
    ensures order[m] in order[..k] <==> order[m] < order[k]
  {
    hide OrderRespecting, HasLogs;
    if m < k {
      assert Precedes(Decls(b), groups, order[m], order[k]);
      assert order[..k][m] == order[m];
    } else if k < m {
      assert Precedes(Decls(b), groups, order[k], order[m]);
    }
  }

  lemma EarlierWaveFirst(b: Block, groups: seq<seq<nat>>, v: nat, w: nat, i: nat, j: nat) returns (k: nat, m: nat)
    requires OrderRespecting(Decls(b), groups) && v < w < |groups| && i in groups[v] && j in groups[w]
    ensures i < |b.txs| && j < |b.txs| && k < m < |InWaveOrder(groups, |groups|)|
    ensures InWaveOrder(groups, |groups|)[k] == i && InWaveOrder(groups, |groups|)[m] == j
  {
    var order := InWaveOrder(groups, |groups|);
    OnlyWave(Decls(b), groups, v, i);
    OnlyWave(Decls(b), groups, w, j);
    WaveOrderIsPermutation(b, groups);
    WaveOrderSorted(Decls(b), groups, |groups|);
    hide OrderRespecting, InWaveOrder;
    assert i in order && j in order;
    k :| 0 <= k < |order| && order[k] == i;
    m :| 0 <= m < |order| && order[m] == j;
  }

  lemma NumberedKeepsOrder(b: Block, s0: State, from: nat, groups: seq<seq<nat>>, starts: map<nat, nat>, size: nat,
                           v: nat, w: nat, i: nat, j: nat)
    requires OrderRespecting(Decls(b), groups) && LogsNumbered(b, s0, from, InWaveOrder(groups, |groups|), starts, size)
    requires Canonical(b, s0, from, starts)
    requires v < w < |groups| && i in groups[v] && j in groups[w] && HasLogs(b, s0, i) && HasLogs(b, s0, j)
    ensures i < j
  {
    hide OrderRespecting, VerdictLogs, InWaveOrder, LogTotal, LogsBefore;
    var order := InWaveOrder(groups, |groups|);
    var k, m := EarlierWaveFirst(b, groups, v, w, i, j);
    assert NumberedAt(b, s0, from, order, starts, k) && NumberedAt(b, s0, from, order, starts, m);
    assert order[..k + 1] == order[..k] + [i];
    OneMoreTotal(b, s0, order[..k], i);
    TotalGrows(b, s0, order, k + 1, m);
    if j <= i {
      BeforeGrows(b, s0, j, i);
    }
  }

  // The logs of the block end up numbered as in an in-order run exactly when no wave
  // overtakes a transaction with logs by a later one that has some too.
  lemma CanonicalExact(b: Block, s0: State, from: nat, groups: seq<seq<nat>>, starts: map<nat, nat>, size: nat)
    requires OrderRespecting(Decls(b), groups) && LogsNumbered(b, s0, from, InWaveOrder(groups, |groups|), starts, size)
    ensures Canonical(b, s0, from, starts) <==> WavesKeepLogOrder(b, s0, groups)
  {
    hide OrderRespecting, VerdictLogs, LogTotal, LogsBefore, HasLogs;
    var order := InWaveOrder(groups, |groups|);
    WaveOrderIsPermutation(b, groups);
    if WavesKeepLogOrder(b, s0, groups) {
      forall i | 0 <= i < |b.txs| && HasLogs(b, s0, i) ensures i in starts && starts[i] == from + |LogsBefore(b, s0, i)| {
        assert i in order;
        var k :| 0 <= k < |order| && order[k] == i;
        KeptOrderNumbers(b, s0, from, groups, starts, k);
      }
    }
    if Canonical(b, s0, from, starts) {
      forall v, w, i, j | 0 <= v < w < |groups| && i in groups[v] && j in groups[w] && HasLogs(b, s0, i) && HasLogs(b, s0, j)
        ensures i < j
      {
        NumberedKeepsOrder(b, s0, from, groups, starts, size, v, w, i, j);
      }
    }
  }

  // Three transactions, the second after the first, the third on its own: the scheduler runs
  // the third before the second, and if these two have logs the numbers come out wrong.
  lemma ThirdOvertakesSecond(b: Block, s0: State, from: nat, starts: map<nat, nat>, size: nat)
    requires |b.txs| == 3 && b.txs[0].decl * b.txs[1].decl != {}
    requires b.txs[2].decl !! b.txs[0].decl && b.txs[2].decl !! b.txs[1].decl
    requires HasLogs(b, s0, 1) && HasLogs(b, s0, 2)
    ensures var groups := [[0, 2], [1]];
            && Level(Decls(b), 0, 3) == groups[0] && Level(Decls(b), 1, 3) == groups[1] && OrderRespecting(Decls(b), groups)
            && (LogsNumbered(b, s0, from, InWaveOrder(groups, 2), starts, size) ==> !Canonical(b, s0, from, starts))
  {
    hide VerdictLogs, LogTotal, LogsBefore;
    var decl, groups := Decls(b), [[0, 2], [1]];
    assert Conflict(decl, 0, 1) && !Conflict(decl, 0, 2) && !Conflict(decl, 1, 2);
    assert Depth(decl, 0) == 0;
    assert Depth(decl, 1) == 1 by { assert DepthBelow(decl, 1, 0) == 0; }
    assert Depth(decl, 2) == 0 by { assert DepthBelow(decl, 2, 0) == 0 && DepthBelow(decl, 2, 1) == 0; }
    assert Level(decl, 0, 1) == [0] && Level(decl, 0, 2) == [0] && Level(decl, 1, 1) == [] && Level(decl, 1, 2) == [1];
    LevelsOrderRespecting(decl, groups);
    if LogsNumbered(b, s0, from, InWaveOrder(groups, 2), starts, size) {
      CanonicalExact(b, s0, from, groups, starts, size);
      assert 2 in groups[0] && 1 in groups[1];
    }
  }
}
