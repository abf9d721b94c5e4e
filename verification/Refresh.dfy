/** Probing what a refresh selected: chunk by chunk, gated, and applied as each chunk is known. */
module Refresh {
  import opened Collections
  import opened EngineStore
  import opened Evidence
  import opened ProbeBudget

  /** The settings the gate reads; `renders` tells which rows make an outbound. */
  datatype Gate = Gate(throughput: bool, minKbS: int, mode: Mode, renders: Node -> bool)

  /** What the admission gate leaves of one verdict. */
  function Admitted(n: Node, r: ProbeResult, g: Gate): ProbeResult {
    if !r.alive then r
    else if !g.renders(n) then r.(alive := false)
    else if g.throughput && r.throughputKbS.None? then r.(alive := false)
    else if g.throughput && r.throughputKbS.value < g.minKbS then r.(alive := false)
    else r
  }

  function AdmitOne(nodes: Nodes, v: (NodeId, ProbeResult), g: Gate): (NodeId, ProbeResult) {
    if v.0 in nodes then (v.0, Admitted(nodes[v.0], v.1, g)) else v
  }

  function AdmitAll(nodes: Nodes, batch: Verdicts, g: Gate): Verdicts {
    seq(|batch|, i requires 0 <= i < |batch| => AdmitOne(nodes, batch[i], g))
  }

  /** `_admit_batch`: the batch is rewritten in place, then applied. */
  method AdmitBatch(store: Store, partial: Verdicts, g: Gate, now: real, root: real -> real)
    modifies store`nodes
    ensures store.nodes == JudgeAll(old(store.nodes), AdmitAll(old(store.nodes), partial, g), g.mode, now, root)
  {
    var batch := partial;
    for i := 0 to |partial|
      invariant |batch| == |partial| && store.nodes == old(store.nodes)
      invariant forall j :: 0 <= j < i ==> batch[j] == AdmitOne(store.nodes, partial[j], g)
      invariant forall j :: i <= j < |partial| ==> batch[j] == partial[j]
    {
      var id, result := batch[i].0, batch[i].1;
      if result.alive && id in store.nodes {
        var node := store.nodes[id];
        if !g.renders(node) {
          batch := batch[i := (id, result.(alive := false))];
        } else if g.throughput && result.throughputKbS.None? {
          batch := batch[i := (id, result.(alive := false))];
        } else if g.throughput && result.throughputKbS.value < g.minKbS {
          batch := batch[i := (id, result.(alive := false))];
        }
      }
    }
    assert batch == AdmitAll(old(store.nodes), partial, g);
    ApplyProbeResults(store, batch, g.mode, now, root);
  }

  /** A row that leaves the gate alive renders, and met the throughput floor if there is one. */
  lemma AliveThroughGate(n: Node, r: ProbeResult, g: Gate, now: real, root: real -> real)
    requires Judge(n, Admitted(n, r, g), g.mode, now, root).state == Alive
    ensures r.alive && g.renders(n)
    ensures g.throughput ==> r.throughputKbS.Some? && r.throughputKbS.value >= g.minKbS
  {
  }

  /** The one verdict a selected row gets: probed, gated and judged at its chunk's time. */
  function Verdict(n: Node, r: ProbeResult, g: Gate, now: real, root: real -> real): Node {
    Judge(n, Admitted(n, r, g), g.mode, now, root)
  }

  /** Node number `i` has had its one verdict, at its chunk's time. */
  ghost predicate RowDone(before: Nodes, after: Nodes, nodes: seq<NodeId>, i: nat, batchSize: int,
                          probe: NodeId -> ProbeResult, g: Gate, clock: nat -> real, root: real -> real)
    requires i < |nodes| && batchSize >= 1
  {
    nodes[i] in before && nodes[i] in after
    && after[nodes[i]] == Verdict(before[nodes[i]], probe(nodes[i]), g, clock(i / batchSize), root)
  }

  ghost predicate RowKept(before: Nodes, after: Nodes, id: NodeId) {
    id in before && id in after && after[id] == before[id]
  }

  /** The first `k` of the nodes have had their verdict, each once; every other row is as it was. */
  ghost predicate JudgedUpTo(before: Nodes, after: Nodes, nodes: seq<NodeId>, k: nat, batchSize: int,
                             probe: NodeId -> ProbeResult, g: Gate, clock: nat -> real, root: real -> real)
    requires k <= |nodes| && batchSize >= 1
  {
    && after.Keys == before.Keys
    && (forall i :: 0 <= i < k ==> RowDone(before, after, nodes, i, batchSize, probe, g, clock, root))
    && (forall id :: id in before && id !in nodes[..k] ==> RowKept(before, after, id))
  }

  /**
    `batch_probe` with the gate as its callback: `probe` is what each node answers, `clock` when
    each chunk is applied. `false` is the ValueError of an empty batch size.
   */
  method BatchProbe(store: Store, nodes: seq<NodeId>, batchSize: int, probe: NodeId -> ProbeResult, g: Gate,
                    clock: nat -> real, root: real -> real)
    returns (ok: bool, results: map<NodeId, ProbeResult>)
    requires Distinct(nodes) && Elements(nodes) <= store.nodes.Keys
    modifies store`nodes
    ensures ok == (batchSize >= 1)
    ensures !ok ==> store.nodes == old(store.nodes)
    ensures ok ==> results == map n | n in Elements(nodes) :: probe(n)
    ensures ok ==> JudgedUpTo(old(store.nodes), store.nodes, nodes, |nodes|, batchSize, probe, g, clock, root)
  {
    hide JudgedUpTo, ChunkJudged, Distinct;
    results := map[];
    if batchSize < 1 { return false, results; }
    var start, chunkNo := 0, 0;
    NothingProbed(store.nodes, nodes, batchSize, probe, g, clock, root);
    while start < |nodes|
      invariant 0 <= start <= |nodes| && (start < |nodes| ==> start == chunkNo * batchSize)
      invariant results == map n | n in Elements(nodes[..start]) :: probe(n)
      invariant JudgedUpTo(old(store.nodes), store.nodes, nodes, start, batchSize, probe, g, clock, root)
    {
      var end := if start + batchSize <= |nodes| then start + batchSize else |nodes|;
      ghost var before := store.nodes;
      ChunkKnown(old(store.nodes), store.nodes, nodes, start, end, batchSize, probe, g, clock, root);
      var heard := ProbeChunk(store, nodes[start..end], probe, g, clock(chunkNo), root);
      JudgedGrows(old(store.nodes), before, store.nodes, nodes, start, end, chunkNo, batchSize, probe, g, clock, root);
      ResultsGrow(nodes, start, end, probe, results, heard);
      results := results + heard;
      start, chunkNo := end, chunkNo + 1;
    }
    assert nodes[..|nodes|] == nodes;
    ok := true;
  }

  lemma ResultsGrow(nodes: seq<NodeId>, start: nat, end: nat, probe: NodeId -> ProbeResult,
                    results: map<NodeId, ProbeResult>, heard: map<NodeId, ProbeResult>)
    requires start <= end <= |nodes|
    requires results == map n | n in Elements(nodes[..start]) :: probe(n)
    requires heard == map n | n in Elements(nodes[start..end]) :: probe(n)
    ensures results + heard == map n | n in Elements(nodes[..end]) :: probe(n)
  {
    assert nodes[..end] == nodes[..start] + nodes[start..end];
  }

  /** `chunk` has had its verdicts, each once, at one time; every other row is as it was. */
  ghost predicate ChunkJudged(before: Nodes, after: Nodes, chunk: seq<NodeId>, probe: NodeId -> ProbeResult, g: Gate,
                              now: real, root: real -> real)
  {
    && after.Keys == before.Keys
    && (forall i :: 0 <= i < |chunk| ==>
          chunk[i] in before && after[chunk[i]] == Verdict(before[chunk[i]], probe(chunk[i]), g, now, root))
    && (forall id :: id in before && id !in chunk ==> after[id] == before[id])
  }

  /** One chunk: every future's result, collected and handed to the callback. */
  method ProbeChunk(store: Store, chunk: seq<NodeId>,
                    probe: NodeId -> ProbeResult, g: Gate, now: real, root: real -> real)
    returns (heard: map<NodeId, ProbeResult>)
    requires Distinct(chunk) && forall i :: 0 <= i < |chunk| ==> chunk[i] in store.nodes
    modifies store`nodes
    ensures heard == map n | n in Elements(chunk) :: probe(n)
    ensures ChunkJudged(old(store.nodes), store.nodes, chunk, probe, g, now, root)
  {
    heard := map[];
    for i := 0 to |chunk|
      invariant heard == map n | n in Elements(chunk[..i]) :: probe(n)
    {
      assert chunk[..i + 1] == chunk[..i] + [chunk[i]];
      heard := heard[chunk[i] := probe(chunk[i])];
    }
    assert chunk[..|chunk|] == chunk;
    forall i | 0 <= i < |chunk| ensures chunk[i] in heard { assert chunk[i] in Elements(chunk); }
    var partial := seq(|chunk|, i requires 0 <= i < |chunk| => (chunk[i], heard[chunk[i]]));
    ChunkRows(store.nodes, chunk, probe, g, now, root, partial);
    AdmitBatch(store, partial, g, now, root);
  }

  lemma ChunkRows(before: Nodes, chunk: seq<NodeId>, probe: NodeId -> ProbeResult, g: Gate, now: real,
                  root: real -> real, partial: Verdicts)
    requires Distinct(chunk) && |partial| == |chunk|
    requires forall i :: 0 <= i < |chunk| ==> chunk[i] in before && partial[i] == (chunk[i], probe(chunk[i]))
    ensures ChunkJudged(before, JudgeAll(before, AdmitAll(before, partial, g), g.mode, now, root), chunk, probe, g,
                        now, root)
  {
    hide Judge, Admitted, JudgeAll;
    var batch := AdmitAll(before, partial, g);
    KeysKept(before, batch, g.mode, now, root);
    forall i | 0 <= i < |chunk|
      ensures JudgeAll(before, batch, g.mode, now, root)[chunk[i]] ==
              Verdict(before[chunk[i]], probe(chunk[i]), g, now, root)
    {
      JudgedOnce(before, batch, g.mode, now, root, chunk[i]);
      assert batch[i] == (chunk[i], Admitted(before[chunk[i]], probe(chunk[i]), g));
    }
    forall id | id in before && id !in chunk ensures JudgeAll(before, batch, g.mode, now, root)[id] == before[id] {
      JudgedOnce(before, batch, g.mode, now, root, id);
      forall r ensures (id, r) !in batch {
        assert forall i :: 0 <= i < |batch| ==> batch[i].0 == chunk[i];
      }
    }
  }

  lemma JudgedGrows(first: Nodes, before: Nodes, after: Nodes, nodes: seq<NodeId>, start: nat, end: nat, chunkNo: nat,
                    batchSize: int, probe: NodeId -> ProbeResult, g: Gate, clock: nat -> real, root: real -> real)
    requires Distinct(nodes) && batchSize >= 1 && start == chunkNo * batchSize
    requires start <= end <= |nodes| && end <= start + batchSize
    requires JudgedUpTo(first, before, nodes, start, batchSize, probe, g, clock, root)
    requires ChunkJudged(before, after, nodes[start..end], probe, g, clock(chunkNo), root)
    ensures JudgedUpTo(first, after, nodes, end, batchSize, probe, g, clock, root)
  {
    hide Verdict, Distinct;
    SliceApart(nodes, start, end);
    forall i | 0 <= i < end ensures RowDone(first, after, nodes, i, batchSize, probe, g, clock, root) {
      if i < start {
        assert RowDone(first, before, nodes, i, batchSize, probe, g, clock, root);
      } else {
        assert RowKept(first, before, nodes[i]);
        assert nodes[start..end][i - start] == nodes[i];
        ChunkOf(i, chunkNo, batchSize);
      }
    }
    hide RowDone;
    forall id | id in first && id !in nodes[..end] ensures RowKept(first, after, id) {
      assert RowKept(first, before, id);
    }
  }

  lemma ChunkKnown(first: Nodes, before: Nodes, nodes: seq<NodeId>, start: nat, end: nat, batchSize: int,
                   probe: NodeId -> ProbeResult, g: Gate, clock: nat -> real, root: real -> real)
    requires Distinct(nodes) && batchSize >= 1 && start <= end <= |nodes| && Elements(nodes) <= first.Keys
    requires JudgedUpTo(first, before, nodes, start, batchSize, probe, g, clock, root)
    ensures var chunk := nodes[start..end];
            Distinct(chunk) && forall i :: 0 <= i < |chunk| ==> chunk[i] in before
  {
    hide RowDone, RowKept;
    forall i | 0 <= i < |nodes| ensures nodes[i] in before { assert nodes[i] in Elements(nodes); }
  }

  lemma SliceApart(nodes: seq<NodeId>, start: nat, end: nat)
    requires Distinct(nodes) && start <= end <= |nodes|
    ensures forall i :: start <= i < end ==> nodes[i] !in nodes[..start]
    ensures forall i :: 0 <= i < start ==> nodes[i] !in nodes[start..end]
    ensures forall id :: id in nodes[..end] <==> id in nodes[..start] || id in nodes[start..end]
  {
    assert nodes[..end] == nodes[..start] + nodes[start..end];
  }

  lemma {:induction false} KeysKept(nodes: Nodes, verdicts: Verdicts, mode: Mode, now: real, root: real -> real)
    ensures JudgeAll(nodes, verdicts, mode, now, root).Keys == nodes.Keys
  {
    if verdicts != [] { KeysKept(nodes, verdicts[..|verdicts| - 1], mode, now, root); }
  }

  lemma ChunkOf(i: nat, chunkNo: nat, batchSize: int)
    requires batchSize >= 1 && chunkNo * batchSize <= i < chunkNo * batchSize + batchSize
    ensures i / batchSize == chunkNo
  {
    var d := i / batchSize - chunkNo;
    assert i == (i / batchSize) * batchSize + i % batchSize;
    assert d * batchSize == i - i % batchSize - chunkNo * batchSize;
    NonZero(d, batchSize);
  }

  lemma NonZero(d: int, n: int)
    requires n >= 1
    ensures d >= 1 ==> d * n >= n
    ensures d <= -1 ==> d * n <= -n
  {
  }

  // ----- One refresh -----

  /** `_probe_new`: the tiered slice of the untested nodes, then the source's oldest dead ones. */
  method ProbeNew(store: Store, source: string, budget: int, deadBudget: int, batchSize: int,
                  probe: NodeId -> ProbeResult, g: Gate, clock: nat -> real, root: real -> real)
    returns (ok: bool, slice: seq<NodeId>, dead: seq<NodeId>)
    modifies store`nodes
    ensures ok <==> batchSize >= 1 || slice + dead == []
    ensures batchSize < 1 ==> store.nodes == old(store.nodes)
    ensures IsSlice(old(store.nodes), budget, Unjudged(old(store.nodes)), slice)
    ensures Elements(dead) <= DeadOf(old(store.nodes), source)
    ensures |dead| == Limited(deadBudget, |DeadOf(old(store.nodes), source)|)
    ensures OldestTaken(old(store.nodes), DeadOf(old(store.nodes), source), Elements(dead))
    ensures Distinct(slice + dead)
    ensures batchSize >= 1 ==>
              JudgedUpTo(old(store.nodes), store.nodes, slice + dead, |slice + dead|, batchSize, probe, g, clock, root)
    ensures ok ==> Unjudged(store.nodes) == Unjudged(old(store.nodes)) - Elements(slice)
    ensures ok ==> forall n :: n in slice + dead ==>
              n in store.nodes && Gated(old(store.nodes), store.nodes[n], n, probe, g)
    ensures ok ==>
              |Unjudged(store.nodes)| ==
              |Unjudged(old(store.nodes))| - Least(AtLeastZero(budget), |Unjudged(old(store.nodes))|)
  {
    ghost var before := store.nodes;
    slice := SelectUntested(store.nodes, budget);
    dead := LoadOldest(store.nodes, DeadOf(store.nodes, source), deadBudget);
    ElementsJoin(slice, dead);
    var nodes := slice + dead;
    NoneDead(before, source, slice, dead);
    if nodes == [] {
      if batchSize >= 1 { NothingProbed(before, nodes, batchSize, probe, g, clock, root); }
      assert slice == [];
      Leavers(before, store.nodes, slice, dead);
      return true, slice, dead;
    }
    var results;
    ok, results := BatchProbe(store, nodes, batchSize, probe, g, clock, root);
    if ok {
      ProbedLeave(before, store.nodes, nodes, batchSize, probe, g, clock, root);
      AllGated(before, store.nodes, nodes, batchSize, probe, g, clock, root);
      Leavers(before, store.nodes, slice, dead);
    }
  }

  lemma NothingProbed(nodes: Nodes, selected: seq<NodeId>, batchSize: int, probe: NodeId -> ProbeResult, g: Gate,
                      clock: nat -> real, root: real -> real)
    requires batchSize >= 1
    ensures JudgedUpTo(nodes, nodes, selected, 0, batchSize, probe, g, clock, root)
  {
  }

  /** A verdict of any kind takes a node out of the untested set; nothing puts one in. */
  lemma ProbedLeave(before: Nodes, after: Nodes, nodes: seq<NodeId>, batchSize: int, probe: NodeId -> ProbeResult,
                    g: Gate, clock: nat -> real, root: real -> real)
    requires batchSize >= 1 && JudgedUpTo(before, after, nodes, |nodes|, batchSize, probe, g, clock, root)
    ensures Unjudged(after) == Unjudged(before) - Elements(nodes)
  {
    assert nodes[..|nodes|] == nodes;
    forall i | 0 <= i < |nodes| ensures nodes[i] in after && after[nodes[i]].state != NodeState.Untested {
      assert RowDone(before, after, nodes, i, batchSize, probe, g, clock, root);
    }
    hide RowDone;
    forall id | id in before && id !in nodes ensures RowKept(before, after, id) {}
    forall id | id in nodes ensures id !in Unjudged(after) {
      var i :| 0 <= i < |nodes| && nodes[i] == id;
    }
  }

  /** A row that came alive did so through the gate: its node answered, renders and met the floor. */
  ghost predicate Gated(before: Nodes, after: Node, n: NodeId, probe: NodeId -> ProbeResult, g: Gate) {
    after.state == Alive ==>
      && n in before && probe(n).alive && g.renders(before[n])
      && (g.throughput ==> probe(n).throughputKbS.Some? && probe(n).throughputKbS.value >= g.minKbS)
  }

  lemma AllGated(before: Nodes, after: Nodes, nodes: seq<NodeId>, batchSize: int, probe: NodeId -> ProbeResult,
                 g: Gate, clock: nat -> real, root: real -> real)
    requires batchSize >= 1 && JudgedUpTo(before, after, nodes, |nodes|, batchSize, probe, g, clock, root)
    ensures forall n :: n in nodes ==> n in after && Gated(before, after[n], n, probe, g)
  {
    forall n | n in nodes ensures n in after && Gated(before, after[n], n, probe, g) {
      var i :| 0 <= i < |nodes| && nodes[i] == n;
      assert RowDone(before, after, nodes, i, batchSize, probe, g, clock, root);
      if after[n].state == Alive { AliveThroughGate(before[n], probe(n), g, clock(i / batchSize), root); }
    }
  }

  lemma NoneDead(before: Nodes, source: string, slice: seq<NodeId>, dead: seq<NodeId>)
    requires Elements(slice) <= Unjudged(before) && Elements(dead) <= DeadOf(before, source)
    ensures Unjudged(before) - Elements(slice + dead) == Unjudged(before) - Elements(slice)
  {
    forall n | n in Unjudged(before) ensures n !in Elements(dead) {}
  }

  lemma Leavers(before: Nodes, after: Nodes, slice: seq<NodeId>, dead: seq<NodeId>)
    requires Distinct(slice) && Elements(slice) <= Unjudged(before)
    requires Unjudged(after) == Unjudged(before) - Elements(slice)
    ensures |Unjudged(after)| == |Unjudged(before)| - |slice|
  {
    ElementsCard(slice);
    assert Unjudged(before) == Unjudged(after) + Elements(slice);
  }

  /** Counts that fall by the budget until they run out: what is left after `k` falls. */
  lemma {:induction false} Exhausted(counts: seq<nat>, budget: nat, k: nat)
    requires budget >= 1 && k < |counts|
    requires forall i :: 0 <= i < |counts| - 1 ==> counts[i + 1] == counts[i] - Least(budget, counts[i])
    ensures counts[k] == AtLeastZero(counts[0] - k * budget)
    ensures counts[k] == 0 <==> k >= (counts[0] + budget - 1) / budget
  {
    if k > 0 {
      Exhausted(counts, budget, k - 1);
      assert counts[k - 1 + 1] == counts[k - 1] - Least(budget, counts[k - 1]);
      assert k * budget == (k - 1) * budget + budget;
    }
    Ceiling(counts[0], budget, k);
  }

  lemma Ceiling(u: nat, n: nat, k: nat)
    requires n >= 1
    ensures k >= (u + n - 1) / n <==> k * n >= u
  {
    var c, r := (u + n - 1) / n, (u + n - 1) % n;
    assert c * n + r == u + n - 1;
    assert k * n == c * n + (k - c) * n;
    NonZero(k - c, n);
  }

  ghost predicate Falling(counts: seq<nat>, budget: nat) {
    forall i :: 0 <= i < |counts| - 1 ==> counts[i + 1] == counts[i] - Least(budget, counts[i])
  }

  lemma NotYetFalling(counts: seq<nat>, budget: nat)
    requires |counts| == 1
    ensures Falling(counts, budget)
  {
  }

  lemma FallsOn(counts: seq<nat>, next: nat, budget: nat)
    requires counts != [] && Falling(counts, budget)
    requires next == counts[|counts| - 1] - Least(budget, counts[|counts| - 1])
    ensures Falling(counts + [next], budget)
  {
  }

  /** How many budgets it takes to cover `u`. */
  function BudgetsFor(u: nat, budget: nat): nat
    requires budget >= 1
  {
    (u + budget - 1) / budget
  }

  /** The first fall to zero is the number of budgets it takes. */
  lemma FirstZero(counts: seq<nat>, budget: nat, n: nat)
    requires budget >= 1 && |counts| == n + 1 && Falling(counts, budget)
    requires counts[n] == 0 && (n > 0 ==> counts[n - 1] > 0)
    ensures n == BudgetsFor(counts[0], budget)
  {
    Exhausted(counts, budget, n);
    if n > 0 { Exhausted(counts, budget, n - 1); }
  }

  /**
    Refresh after refresh, of whatever sources, with nothing new arriving: the untested nodes
    are exhausted, after exactly as many refreshes as it takes budgets to cover them. Which
    source is refreshed, what each node answers and when a chunk is applied may differ each time.
   */
  method RefreshUntilTested(store: Store, source: nat -> string, budget: nat, deadBudget: int, batchSize: int,
                            probe: nat -> NodeId -> ProbeResult, g: Gate, clock: nat -> nat -> real, root: real -> real)
    returns (refreshes: nat)
    requires budget >= 1 && batchSize >= 1
    modifies store`nodes
    ensures Unjudged(store.nodes) == {}
    ensures refreshes == BudgetsFor(|Unjudged(old(store.nodes))|, budget)
  {
    hide Unjudged, BudgetsFor, Falling, IsSlice, JudgedUpTo, OldestTaken, Elements, Distinct, DeadOf;
    refreshes := 0;
    ghost var counts: seq<nat> := [|Unjudged(store.nodes)|];
    NotYetFalling(counts, budget);
    while |Unjudged(store.nodes)| > 0
      invariant |counts| == refreshes + 1 && counts[refreshes] == |Unjudged(store.nodes)|
      invariant counts[0] == |Unjudged(old(store.nodes))|
      invariant Falling(counts, budget)
      invariant refreshes > 0 ==> counts[refreshes - 1] > 0
      decreases |Unjudged(store.nodes)|
    {
      var ok, slice, dead := ProbeNew(store, source(refreshes), budget, deadBudget, batchSize, probe(refreshes), g,
                                      clock(refreshes), root);
      FallsOn(counts, |Unjudged(store.nodes)|, budget);
      counts := counts + [|Unjudged(store.nodes)|];
      refreshes := refreshes + 1;
    }
    FirstZero(counts, budget, refreshes);
  }
}
