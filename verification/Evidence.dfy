/**
  The evidence the store keeps on a node: two counters folded window by window, the cached
  score, and what a change of URI voids.
 */
module Evidence {
  import opened Wrappers
  import opened EngineStore
  import opened Wilson
  import opened WilsonSql

  datatype ProbeResult = ProbeResult(alive: bool, latencyMs: Option<int>, throughputKbS: Option<int>)

  /** With stability scoring off a verdict moves no counter. */
  datatype Mode = Plain | Stability(windowS: Option<real>)

  /** The cached score: what the inlined SQL evaluates to; `root` gives square roots. */
  function Score(ok: int, total: int, root: real -> real): Option<real> {
    match Eval(WilsonExpr(I(ok), I(total)), map[], root)
    case Null => None
    case Int(i) => Some(i as real)
    case Real(r) => Some(r)
  }

  /** The counter window has outlived its length, or never began. */
  predicate Outlived(started: Option<real>, now: real, windowS: Option<real>) {
    windowS.Some? && (started.None? || now - started.value > windowS.value)
  }

  /** What a verdict writes whatever the mode. */
  function Stamped(n: Node, r: ProbeResult, now: real): Node {
    n.(state := if r.alive then Alive else Dead,
       latencyMs := r.latencyMs,
       throughputKbS := if r.throughputKbS.Some? then r.throughputKbS else n.throughputKbS,
       throughputMeasuredS :=
         if r.throughputKbS.Some? && r.throughputKbS.value != 0 then Some(now) else n.throughputMeasuredS)
  }

  /** One verdict on one row. */
  function Judge(n: Node, r: ProbeResult, mode: Mode, now: real, root: real -> real): Node {
    match mode
    case Plain => Stamped(n, r, now)
    case Stability(windowS) =>
      var opens := Outlived(n.windowStartedS, now, windowS);
      var ok := (if opens then n.probeOk / 2 else n.probeOk) + (if r.alive then 1 else 0);
      var total := (if opens then n.probeTotal / 2 else n.probeTotal) + 1;
      Stamped(n, r, now).(
        probeOk := ok, probeTotal := total,
        windowStartedS := if opens || n.windowStartedS.None? then Some(now) else n.windowStartedS,
        lastProbeS := Some(now),
        lastAliveS := if r.alive then Some(now) else n.lastAliveS,
        score := Score(ok, total, root))
  }

  type Verdicts = seq<(NodeId, ProbeResult)>

  function JudgeRow(nodes: Nodes, id: NodeId, r: ProbeResult, mode: Mode, now: real, root: real -> real): Nodes {
    if id in nodes then nodes[id := Judge(nodes[id], r, mode, now, root)] else nodes
  }

  function JudgeAll(nodes: Nodes, verdicts: Verdicts, mode: Mode, now: real, root: real -> real): Nodes {
    if verdicts == [] then nodes
    else
      var last := verdicts[|verdicts| - 1];
      JudgeRow(JudgeAll(nodes, verdicts[..|verdicts| - 1], mode, now, root), last.0, last.1, mode, now, root)
  }

  /** `apply_probe_results`: read each row, fold in Python, write it back. */
  method ApplyProbeResults(store: Store, verdicts: Verdicts, mode: Mode, now: real, root: real -> real)
    modifies store`nodes
    ensures store.nodes == JudgeAll(old(store.nodes), verdicts, mode, now, root)
  {
    for i := 0 to |verdicts|
      invariant store.nodes == JudgeAll(old(store.nodes), verdicts[..i], mode, now, root)
    {
      assert verdicts[..i + 1][..i] == verdicts[..i];
      var id, r := verdicts[i].0, verdicts[i].1;
      if mode.Stability? {
        var ok, total, started := 0, 0, None;
        if id in store.nodes {
          ok, total, started := store.nodes[id].probeOk, store.nodes[id].probeTotal, store.nodes[id].windowStartedS;
        }
        if Outlived(started, now, mode.windowS) {
          ok := ok / 2;
          total := total / 2;
          started := Some(now);
        }
        if started.None? {
          started := Some(now);
        }
        ok := ok + (if r.alive then 1 else 0);
        total := total + 1;
        if id in store.nodes {
          var row := store.nodes[id];
          store.nodes := store.nodes[id := Stamped(row, r, now).(
            probeOk := ok, probeTotal := total, windowStartedS := started, lastProbeS := Some(now),
            lastAliveS := if r.alive then Some(now) else row.lastAliveS, score := Score(ok, total, root))];
        }
      } else if id in store.nodes {
        store.nodes := store.nodes[id := Stamped(store.nodes[id], r, now)];
      }
    }
    assert verdicts[..|verdicts|] == verdicts;
  }

  // ----- Scraped rows -----

  datatype Candidate = Candidate(id: NodeId, uri: string, protocol: Protocol, source: string, seenS: real)

  /** A row just inserted: every verdict column at its default. */
  function Inserted(c: Candidate): Node {
    Node(c.uri, c.protocol, c.source, c.seenS, Untested, None, None, None, None, 0, 0, None, None, None, None)
  }

  /** A known row scraped again: a new URI or protocol voids every verdict, not the assignment. */
  function Rescraped(n: Node, c: Candidate): Node {
    if n.uri == c.uri && n.protocol == c.protocol then n
    else
      n.(uri := c.uri, protocol := c.protocol, state := Untested, latencyMs := None,
         throughputKbS := None, throughputMeasuredS := None, probeOk := 0, probeTotal := 0,
         windowStartedS := None, lastProbeS := None, lastAliveS := None, score := None)
  }

  function Ids(batch: seq<Candidate>): set<NodeId> { set c | c in batch :: c.id }

  /** Every row of the batch is inserted or rescraped; no other row moves. */
  ghost predicate Upserted(before: Nodes, after: Nodes, batch: seq<Candidate>) {
    && after.Keys == before.Keys + Ids(batch)
    && (forall id :: id in before && (forall c :: c in batch ==> c.id != id) ==> after[id] == before[id])
    && (forall c :: c in batch ==>
          after[c.id] == if c.id in before then Rescraped(before[c.id], c) else Inserted(c))
  }

  predicate DistinctIds(batch: seq<Candidate>) {
    forall i, j :: 0 <= i < j < |batch| ==> batch[i].id != batch[j].id
  }

  /** A new id occurs once: its INSERTs keep the primary key. */
  predicate FreshOnce(batch: seq<Candidate>, known: set<NodeId>) {
    forall i, j :: 0 <= i < j < |batch| && batch[i].id == batch[j].id ==> batch[i].id in known
  }

  /** How many candidates come before the first INSERT that repeats an id. */
  function Clean(batch: seq<Candidate>, known: set<NodeId>): (n: nat)
    ensures n <= |batch|
  {
    if batch == [] then 0
    else
      var init, c := batch[..|batch| - 1], batch[|batch| - 1];
      var clean := Clean(init, known);
      if clean == |init| && (c.id in known || c.id !in Ids(init)) then |batch| else clean
  }

  /** The new rows of a batch, inserted in order. */
  function WithFresh(nodes: Nodes, batch: seq<Candidate>, known: set<NodeId>): Nodes {
    if batch == [] then nodes
    else
      var rest, c := WithFresh(nodes, batch[..|batch| - 1], known), batch[|batch| - 1];
      if c.id in known then rest else rest[c.id := Inserted(c)]
  }

  /** The known rows of a batch, rescraped in order. */
  function WithKnown(nodes: Nodes, batch: seq<Candidate>, known: set<NodeId>): Nodes {
    if batch == [] then nodes
    else
      var rest, c := WithKnown(nodes, batch[..|batch| - 1], known), batch[|batch| - 1];
      if c.id in known && c.id in rest then rest[c.id := Rescraped(rest[c.id], c)] else rest
  }

  /**
    `upsert_candidates`: the new rows first, then the known ones, each as often as the batch
    names it. A new id named twice violates the primary key: the call raises, with the rows
    before the repeated one inserted and no known row updated.
   */
  method UpsertCandidates(store: Store, batch: seq<Candidate>) returns (inserted: Option<nat>)
    modifies store`nodes
    ensures var before, known := old(store.nodes), old(store.nodes).Keys;
            if FreshOnce(batch, known)
            then inserted == Some(|store.nodes.Keys - known|)
                 && store.nodes == WithKnown(WithFresh(before, batch, known), batch, known)
            else inserted == None && store.nodes == WithFresh(before, batch[..Clean(batch, known)], known)
    ensures DistinctIds(batch) ==> inserted.Some? && Upserted(old(store.nodes), store.nodes, batch)
  {
    hide Clean, Upserted, FreshOnce, WithKnown, WithFresh, DistinctIds;
    var known := store.nodes.Keys;
    CleanIff(batch, known);
    var count, ok := InsertFresh(store, batch, known);
    if !ok {
      if DistinctIds(batch) { DistinctFresh(batch, known); }
      return None;
    }
    assert batch[..|batch|] == batch;
    KnownKeys(store.nodes, batch, known);
    UpdateKnown(store, batch, known);
    if DistinctIds(batch) { DistinctUpserted(old(store.nodes), batch); }
    inserted := Some(count);
  }

  /** The INSERTs, in order, up to one that raises. */
  method InsertFresh(store: Store, batch: seq<Candidate>, known: set<NodeId>) returns (count: nat, ok: bool)
    requires store.nodes.Keys == known
    modifies store`nodes
    ensures ok <==> Clean(batch, known) == |batch|
    ensures store.nodes == WithFresh(old(store.nodes), batch[..Clean(batch, known)], known)
    ensures known <= store.nodes.Keys && count == |store.nodes.Keys - known|
  {
    hide InsertedUpTo, Inserted;
    count := 0;
    NoneInserted(store.nodes, batch, known);
    for i := 0 to |batch|
      invariant InsertedUpTo(old(store.nodes), store.nodes, batch, i, known, count)
    {
      var c := batch[i];
      OneMoreRow(old(store.nodes), store.nodes, batch, i, known, count);
      if c.id !in known {
        if c.id in store.nodes {
          return count, false;
        }
        store.nodes := store.nodes[c.id := Inserted(c)];
        count := count + 1;
      }
    }
    AllInserted(old(store.nodes), store.nodes, batch, known, count);
    ok := true;
  }

  /** The first `i` candidates are through, `count` of them inserted. */
  ghost predicate InsertedUpTo(before: Nodes, rows: Nodes, batch: seq<Candidate>, i: int, known: set<NodeId>,
                               count: nat) {
    && 0 <= i <= |batch| && Clean(batch[..i], known) == i
    && rows == WithFresh(before, batch[..i], known)
    && rows.Keys == known + Ids(batch[..i]) && count == |rows.Keys - known|
  }

  lemma NoneInserted(before: Nodes, batch: seq<Candidate>, known: set<NodeId>)
    requires before.Keys == known
    ensures InsertedUpTo(before, before, batch, 0, known, 0)
  {
    assert before.Keys - known == {};
  }

  lemma AllInserted(before: Nodes, rows: Nodes, batch: seq<Candidate>, known: set<NodeId>, count: nat)
    requires InsertedUpTo(before, rows, batch, |batch|, known, count)
    ensures Clean(batch, known) == |batch| && rows == WithFresh(before, batch, known)
    ensures batch[..|batch|] == batch && known <= rows.Keys && count == |rows.Keys - known|
  {
    assert batch[..|batch|] == batch;
  }

  /** The next candidate is left for later, inserted, or raises. */
  lemma OneMoreRow(before: Nodes, rows: Nodes, batch: seq<Candidate>, i: nat, known: set<NodeId>, count: nat)
    requires i < |batch| && InsertedUpTo(before, rows, batch, i, known, count)
    ensures var c := batch[i];
            if c.id in known then InsertedUpTo(before, rows, batch, i + 1, known, count)
            else if c.id in rows then
              Clean(batch, known) == i && rows == WithFresh(before, batch[..i], known)
              && known <= rows.Keys && count == |rows.Keys - known|
            else InsertedUpTo(before, rows[c.id := Inserted(c)], batch, i + 1, known, count + 1)
  {
    hide Inserted, Ids, Clean;
    var c := batch[i];
    CleanStep(batch, i, known);
    IdsGrow(batch, i);
    OneMoreKey(rows, known, Ids(batch[..i]), c.id, Inserted(c));
  }

  lemma OneMoreKey(rows: Nodes, known: set<NodeId>, ids: set<NodeId>, id: NodeId, row: Node)
    requires rows.Keys == known + ids
    ensures id in known ==> known + (ids + {id}) == known + ids
    ensures id !in known ==> (id in rows <==> id in ids)
    ensures id !in rows ==>
              && rows[id := row].Keys == known + (ids + {id})
              && |rows[id := row].Keys - known| == |rows.Keys - known| + 1
  {
    if id !in rows {
      assert rows[id := row].Keys - known == (rows.Keys - known) + {id};
    }
  }

  method UpdateKnown(store: Store, batch: seq<Candidate>, known: set<NodeId>)
    requires known <= store.nodes.Keys
    modifies store`nodes
    ensures store.nodes == WithKnown(old(store.nodes), batch, known)
  {
    for i := 0 to |batch|
      invariant store.nodes == WithKnown(old(store.nodes), batch[..i], known)
      invariant store.nodes.Keys == old(store.nodes).Keys
    {
      assert batch[..i + 1][..i] == batch[..i];
      if batch[i].id in known {
        store.nodes := store.nodes[batch[i].id := Rescraped(store.nodes[batch[i].id], batch[i])];
      }
    }
    assert batch[..|batch|] == batch;
  }

  lemma IdsGrow(batch: seq<Candidate>, i: nat)
    requires i < |batch|
    ensures Ids(batch[..i + 1]) == Ids(batch[..i]) + {batch[i].id}
    ensures batch[..i + 1][..i] == batch[..i]
    ensures batch[..0] == [] && Ids([]) == {}
  {
    assert batch[..i + 1] == batch[..i] + [batch[i]];
    assert batch[i] in batch[..i + 1];
    forall c | c in batch[..i] ensures c in batch[..i + 1] {
      var j :| 0 <= j < i && batch[j] == c;
      assert batch[..i + 1][j] == c;
    }
  }

  lemma {:induction false} CleanPrefix(batch: seq<Candidate>, known: set<NodeId>, n: nat)
    requires n <= |batch| && Clean(batch[..n], known) < n
    ensures Clean(batch, known) == Clean(batch[..n], known)
    decreases |batch|
  {
    if n < |batch| {
      var init := batch[..|batch| - 1];
      assert init[..n] == batch[..n];
      CleanPrefix(init, known, n);
    } else {
      assert batch[..n] == batch;
    }
  }

  /** One more candidate is inserted, updated later, or raises there and then. */
  lemma CleanStep(batch: seq<Candidate>, i: nat, known: set<NodeId>)
    requires i < |batch| && Clean(batch[..i], known) == i
    ensures batch[i].id in known || batch[i].id !in Ids(batch[..i]) ==> Clean(batch[..i + 1], known) == i + 1
    ensures !(batch[i].id in known || batch[i].id !in Ids(batch[..i])) ==> Clean(batch, known) == i
  {
    assert batch[..i + 1][..i] == batch[..i];
    if Clean(batch[..i + 1], known) < i + 1 { CleanPrefix(batch, known, i + 1); }
  }

  lemma {:induction false} CleanIff(batch: seq<Candidate>, known: set<NodeId>)
    ensures Clean(batch, known) == |batch| <==> FreshOnce(batch, known)
  {
    if batch != [] {
      var n := |batch| - 1;
      var init := batch[..n];
      CleanIff(init, known);
      assert FreshOnce(batch, known) ==> FreshOnce(init, known);
      if batch[n].id in Ids(init) {
        var c :| c in init && c.id == batch[n].id;
        var k :| 0 <= k < n && init[k] == c;
        assert batch[k].id == batch[n].id;
      } else {
        forall k | 0 <= k < n ensures batch[k].id != batch[n].id { assert init[k] in init; }
      }
    }
  }

  lemma DistinctFresh(batch: seq<Candidate>, known: set<NodeId>)
    requires DistinctIds(batch)
    ensures FreshOnce(batch, known)
  {
  }

  /** A row named once is inserted, or rescraped once; one named never stays. */
  lemma {:induction false} FreshRows(nodes: Nodes, batch: seq<Candidate>, known: set<NodeId>)
    requires DistinctIds(batch)
    ensures var after := WithFresh(nodes, batch, known);
            && after.Keys == nodes.Keys + (Ids(batch) - known)
            && (forall id :: id in nodes && (id in known || id !in Ids(batch)) ==> after[id] == nodes[id])
            && (forall j :: 0 <= j < |batch| && batch[j].id !in known ==>
                  batch[j].id in after && after[batch[j].id] == Inserted(batch[j]))
  {
    hide Inserted, Ids;
    if batch != [] {
      var n := |batch| - 1;
      IdsGrow(batch, n);
      assert batch[..n + 1] == batch;
      FreshRows(nodes, batch[..n], known);
      assert forall j :: 0 <= j < n ==> batch[..n][j] == batch[j] && batch[j].id != batch[n].id;
    } else {
      NoIds();
    }
  }

  lemma NoIds()
    ensures Ids([]) == {}
  {
  }

  lemma {:induction false} KnownRows(nodes: Nodes, batch: seq<Candidate>, known: set<NodeId>)
    requires DistinctIds(batch) && known <= nodes.Keys
    ensures var after := WithKnown(nodes, batch, known);
            && after.Keys == nodes.Keys
            && (forall id :: id in nodes && (id !in known || id !in Ids(batch)) ==> after[id] == nodes[id])
            && (forall j :: 0 <= j < |batch| && batch[j].id in known ==>
                  after[batch[j].id] == Rescraped(nodes[batch[j].id], batch[j]))
  {
    hide Rescraped, Ids;
    if batch != [] {
      var n := |batch| - 1;
      IdsGrow(batch, n);
      assert batch[..n + 1] == batch;
      KnownRows(nodes, batch[..n], known);
      IdIsNew(batch, n);
      assert forall j :: 0 <= j < n ==> batch[..n][j] == batch[j] && batch[j].id != batch[n].id;
    }
  }

  lemma IdIsNew(batch: seq<Candidate>, n: nat)
    requires DistinctIds(batch) && n < |batch|
    ensures batch[n].id !in Ids(batch[..n])
  {
    forall c | c in batch[..n] ensures c.id != batch[n].id {
      var j :| 0 <= j < n && batch[j] == c;
    }
  }

  lemma {:induction false} KnownKeys(nodes: Nodes, batch: seq<Candidate>, known: set<NodeId>)
    ensures WithKnown(nodes, batch, known).Keys == nodes.Keys
  {
    if batch != [] { KnownKeys(nodes, batch[..|batch| - 1], known); }
  }

  /** A batch that names no id twice inserts or rescrapes every row it names, and moves no other. */
  lemma DistinctUpserted(before: Nodes, batch: seq<Candidate>)
    requires DistinctIds(batch)
    ensures Upserted(before, WithKnown(WithFresh(before, batch, before.Keys), batch, before.Keys), batch)
  {
    hide WithKnown, WithFresh, Rescraped, Inserted;
    FreshRows(before, batch, before.Keys);
    KnownRows(WithFresh(before, batch, before.Keys), batch, before.Keys);
    var after := WithKnown(WithFresh(before, batch, before.Keys), batch, before.Keys);
    forall c | c in batch
      ensures c.id in after && after[c.id] == if c.id in before then Rescraped(before[c.id], c) else Inserted(c)
    {
      var j :| 0 <= j < |batch| && batch[j] == c;
    }
  }

  // ----- The life of one row -----

  datatype RowEvent =
    | Probed(r: ProbeResult, mode: Mode, now: real)
    | Scraped(c: Candidate)
    | Owned(owner: Option<TunnelId>)

  function After(n: Node, ev: RowEvent, root: real -> real): Node {
    match ev
    case Probed(r, mode, now) => Judge(n, r, mode, now, root)
    case Scraped(c) => Rescraped(n, c)
    case Owned(owner) => n.(assignedTo := owner)
  }

  function Life(first: Candidate, events: seq<RowEvent>, root: real -> real): Node {
    if events == [] then Inserted(first)
    else After(Life(first, events[..|events| - 1], root), events[|events| - 1], root)
  }

  // ----- What the counters mean: an independent reading of the same life -----

  /** A stability verdict. */
  datatype Tick = Tick(alive: bool, now: real, windowS: Option<real>)

  /** The endpoint the row stands for. */
  function Endpoint(first: Candidate, events: seq<RowEvent>): (string, Protocol) {
    if events == [] then (first.uri, first.protocol)
    else
      var last := events[|events| - 1];
      if last.Scraped? then (last.c.uri, last.c.protocol) else Endpoint(first, events[..|events| - 1])
  }

  /** The stability verdicts since the endpoint last changed. */
  function Since(first: Candidate, events: seq<RowEvent>): seq<Tick> {
    if events == [] then []
    else
      var init, last := events[..|events| - 1], events[|events| - 1];
      match last
      case Probed(r, Stability(w), now) => Since(first, init) + [Tick(r.alive, now, w)]
      case Scraped(c) => if (c.uri, c.protocol) == Endpoint(first, init) then Since(first, init) else []
      case _ => Since(first, init)
  }

  /** When the window a verdict falls into began. */
  function Began(ticks: seq<Tick>): (began: Option<real>)
    ensures began.None? <==> ticks == []
  {
    if ticks == [] then None
    else
      var init, last := ticks[..|ticks| - 1], ticks[|ticks| - 1];
      if init == [] || Outlived(Began(init), last.now, last.windowS) then Some(last.now) else Began(init)
  }

  /** The verdicts split into their windows. */
  function Windows(ticks: seq<Tick>): (ws: seq<seq<bool>>)
    ensures ticks != [] <==> ws != []
    ensures forall i :: 0 <= i < |ws| ==> ws[i] != []
  {
    if ticks == [] then []
    else
      var init, last := ticks[..|ticks| - 1], ticks[|ticks| - 1];
      var ws := Windows(init);
      if init == [] || Outlived(Began(init), last.now, last.windowS) then ws + [[last.alive]]
      else ws[..|ws| - 1] + [ws[|ws| - 1] + [last.alive]]
  }

  function Successes(w: seq<bool>): nat {
    if w == [] then 0 else Successes(w[..|w| - 1]) + (if w[|w| - 1] then 1 else 0)
  }

  /** Each window in full, over half of what the windows before it left: successes. */
  function FoldedOk(ws: seq<seq<bool>>): nat {
    if ws == [] then 0 else FoldedOk(ws[..|ws| - 1]) / 2 + Successes(ws[|ws| - 1])
  }

  /** The same for the number of verdicts. */
  function FoldedTotal(ws: seq<seq<bool>>): nat {
    if ws == [] then 0 else FoldedTotal(ws[..|ws| - 1]) / 2 + |ws[|ws| - 1]|
  }

  lemma FoldOpens(ws: seq<seq<bool>>, alive: bool)
    ensures FoldedOk(ws + [[alive]]) == FoldedOk(ws) / 2 + (if alive then 1 else 0)
    ensures FoldedTotal(ws + [[alive]]) == FoldedTotal(ws) / 2 + 1
  {
    assert (ws + [[alive]])[..|ws|] == ws;
    assert [alive][..0] == [];
    assert Successes([alive]) == if alive then 1 else 0;
  }

  lemma FoldExtends(ws: seq<seq<bool>>, alive: bool)
    requires ws != []
    ensures var longer := ws[..|ws| - 1] + [ws[|ws| - 1] + [alive]];
            && FoldedOk(longer) == FoldedOk(ws) + (if alive then 1 else 0)
            && FoldedTotal(longer) == FoldedTotal(ws) + 1
  {
    var init, last := ws[..|ws| - 1], ws[|ws| - 1];
    assert (init + [last + [alive]])[..|ws| - 1] == init;
    assert (last + [alive])[..|last|] == last;
  }

  /** The row stands for its endpoint, and its window began where the reference says. */
  lemma {:induction false} RowReads(first: Candidate, events: seq<RowEvent>, root: real -> real)
    ensures var n := Life(first, events, root);
            (n.uri, n.protocol) == Endpoint(first, events) && n.windowStartedS == Began(Since(first, events))
  {
    if events != [] {
      var init, last := events[..|events| - 1], events[|events| - 1];
      RowReads(first, init, root);
      var ticks := Since(first, init);
      if last.Probed? && last.mode.Stability? {
        assert (ticks + [Tick(last.r.alive, last.now, last.mode.windowS)])[..|ticks|] == ticks;
      }
    }
  }

  /**
    The incremental fold means the window-wise one: whatever happened to the row, its counters
    are the halving fold over the windows of the stability verdicts its present endpoint got.
   */
  lemma {:induction false} CountersRefine(first: Candidate, events: seq<RowEvent>, root: real -> real)
    ensures var n := Life(first, events, root);
            var ws := Windows(Since(first, events));
            n.probeOk == FoldedOk(ws) && n.probeTotal == FoldedTotal(ws)
  {
    hide Score, Windows, FoldedOk, FoldedTotal, Began;
    if events == [] {
      NoTicks();
    } else {
      var init, last := events[..|events| - 1], events[|events| - 1];
      CountersRefine(first, init, root);
      NoTicks();
      RowReads(first, init, root);
      if last.Probed? && last.mode.Stability? {
        TickFolds(Life(first, init, root), Since(first, init), last.r, last.mode.windowS, last.now, root);
      }
    }
  }

  lemma NoTicks()
    ensures Windows([]) == [] && FoldedOk([]) == 0 && FoldedTotal([]) == 0
  {
  }

  lemma WindowsStep(ticks: seq<Tick>, tick: Tick)
    ensures var ws := Windows(ticks);
            Windows(ticks + [tick]) ==
            if ticks == [] || Outlived(Began(ticks), tick.now, tick.windowS) then ws + [[tick.alive]]
            else ws[..|ws| - 1] + [ws[|ws| - 1] + [tick.alive]]
  {
    assert (ticks + [tick])[..|ticks|] == ticks;
  }

  lemma TickFolds(n: Node, ticks: seq<Tick>, r: ProbeResult, windowS: Option<real>, now: real, root: real -> real)
    requires n.windowStartedS == Began(ticks)
    requires n.probeOk == FoldedOk(Windows(ticks)) && n.probeTotal == FoldedTotal(Windows(ticks))
    ensures var after := Judge(n, r, Stability(windowS), now, root);
            var ws := Windows(ticks + [Tick(r.alive, now, windowS)]);
            after.probeOk == FoldedOk(ws) && after.probeTotal == FoldedTotal(ws)
  {
    hide Score, Stamped, Windows, FoldedOk, FoldedTotal, Began, Outlived;
    WindowsStep(ticks, Tick(r.alive, now, windowS));
    NoTicks();
    if ticks == [] || Outlived(Began(ticks), now, windowS) {
      FoldOpens(Windows(ticks), r.alive);
    } else {
      FoldExtends(Windows(ticks), r.alive);
    }
  }

  lemma {:induction false} SuccessesAtMost(w: seq<bool>)
    ensures Successes(w) <= |w|
  {
    if w != [] { SuccessesAtMost(w[..|w| - 1]); }
  }

  lemma {:induction false} FoldedWithin(ws: seq<seq<bool>>)
    ensures FoldedOk(ws) <= FoldedTotal(ws)
    ensures ws != [] && ws[|ws| - 1] != [] ==> FoldedTotal(ws) >= 1
  {
    if ws != [] {
      FoldedWithin(ws[..|ws| - 1]);
      SuccessesAtMost(ws[|ws| - 1]);
    }
  }

  /** Successes never outnumber probes, and neither is negative. */
  lemma CountersInRange(first: Candidate, events: seq<RowEvent>, root: real -> real)
    ensures var n := Life(first, events, root); 0 <= n.probeOk <= n.probeTotal
    ensures Since(first, events) != [] ==> Life(first, events, root).probeTotal >= 1
  {
    CountersRefine(first, events, root);
    FoldedWithin(Windows(Since(first, events)));
  }

  /** If no window ever holds more than `r` verdicts, the total stays below `2 * r`, for ever. */
  lemma {:induction false} TotalBounded(ws: seq<seq<bool>>, r: nat)
    requires r >= 1 && forall w :: w in ws ==> |w| <= r
    ensures FoldedTotal(ws) <= 2 * r - 1
  {
    if ws != [] {
      TotalBounded(ws[..|ws| - 1], r);
      assert ws[|ws| - 1] in ws;
    }
  }

  lemma ProbeTotalBounded(first: Candidate, events: seq<RowEvent>, root: real -> real, r: nat)
    requires r >= 1 && forall w :: w in Windows(Since(first, events)) ==> |w| <= r
    ensures Life(first, events, root).probeTotal < 2 * r
  {
    CountersRefine(first, events, root);
    TotalBounded(Windows(Since(first, events)), r);
  }

  /** The cached score is NULL until a verdict counts, and then always the bound of the present counters. */
  lemma {:induction false} ScoreIsBound(first: Candidate, events: seq<RowEvent>, root: real -> real)
    ensures var n := Life(first, events, root);
            if Since(first, events) == [] then n.score == None
            else n.probeTotal >= 1
                 && n.score == Some(WilsonLower(n.probeOk, n.probeTotal, root(Radicand(n.probeOk, n.probeTotal))))
  {
    CountersInRange(first, events, root);
    if events != [] {
      var init, last := events[..|events| - 1], events[|events| - 1];
      ScoreIsBound(first, init, root);
      RowReads(first, init, root);
      var n := Life(first, events, root);
      if last.Probed? && last.mode.Stability? {
        SqlIsPython(I(n.probeOk), I(n.probeTotal), map[], root, n.probeOk, n.probeTotal);
      }
    }
  }

  // ----- Every row of every reachable store has such a life -----

  ghost predicate Lived(n: Node, root: real -> real) {
    exists first, events :: n == Life(first, events, root)
  }

  /** Every row was inserted by a scrape and then only probed, scraped and assigned. */
  ghost predicate AllLived(nodes: Nodes, root: real -> real) {
    forall id :: id in nodes ==> Lived(nodes[id], root)
  }

  lemma LivesOn(n: Node, ev: RowEvent, root: real -> real)
    requires Lived(n, root)
    ensures Lived(After(n, ev, root), root)
  {
    var first, events :| n == Life(first, events, root);
    assert (events + [ev])[..|events|] == events;
    assert After(n, ev, root) == Life(first, events + [ev], root);
  }

  /** Verdicts move no assignment: to the assignment machine they are invisible. */
  lemma {:induction false} JudgingAssignsNothing(nodes: Nodes, verdicts: Verdicts, mode: Mode, now: real,
                                                 root: real -> real)
    ensures SameAssignments(nodes, JudgeAll(nodes, verdicts, mode, now, root))
  {
    if verdicts != [] {
      JudgingAssignsNothing(nodes, verdicts[..|verdicts| - 1], mode, now, root);
    }
  }

  lemma {:induction false} JudgingLives(nodes: Nodes, verdicts: Verdicts, mode: Mode, now: real, root: real -> real)
    requires AllLived(nodes, root)
    ensures AllLived(JudgeAll(nodes, verdicts, mode, now, root), root)
  {
    if verdicts != [] {
      var init, last := verdicts[..|verdicts| - 1], verdicts[|verdicts| - 1];
      JudgingLives(nodes, init, mode, now, root);
      var before := JudgeAll(nodes, init, mode, now, root);
      if last.0 in before {
        LivesOn(before[last.0], Probed(last.1, mode, now), root);
      }
    }
  }

  lemma {:induction false} InsertingLives(before: Nodes, batch: seq<Candidate>, root: real -> real)
    requires AllLived(before, root)
    ensures var after := WithFresh(before, batch, before.Keys);
            AllLived(after, root) && SameAssignments(before, after)
  {
    if batch != [] {
      var c := batch[|batch| - 1];
      InsertingLives(before, batch[..|batch| - 1], root);
      assert Inserted(c) == Life(c, [], root);
    }
  }

  lemma {:induction false} RescrapingLives(before: Nodes, batch: seq<Candidate>, known: set<NodeId>, root: real -> real)
    requires AllLived(before, root)
    ensures var after := WithKnown(before, batch, known);
            AllLived(after, root) && SameAssignments(before, after)
  {
    if batch != [] {
      var init, c := batch[..|batch| - 1], batch[|batch| - 1];
      RescrapingLives(before, init, known, root);
      var rest := WithKnown(before, init, known);
      if c.id in rest { LivesOn(rest[c.id], Scraped(c), root); }
    }
  }

  /** A scrape, whether it raises or not, keeps every row's life and moves no assignment. */
  lemma ScrapingLives(before: Nodes, batch: seq<Candidate>, root: real -> real)
    requires AllLived(before, root)
    ensures var all, cut := WithFresh(before, batch, before.Keys), batch[..Clean(batch, before.Keys)];
            var after, raised := WithKnown(all, batch, before.Keys), WithFresh(before, cut, before.Keys);
            && AllLived(after, root) && SameAssignments(before, after)
            && AllLived(raised, root) && SameAssignments(before, raised)
  {
    CleanIff(batch, before.Keys);
    InsertingLives(before, batch, root);
    InsertingLives(before, batch[..Clean(batch, before.Keys)], root);
    RescrapingLives(WithFresh(before, batch, before.Keys), batch, before.Keys, root);
  }

  lemma AssigningLives(nodes: Nodes, ids: set<NodeId>, t: TunnelId, n: NodeId, root: real -> real)
    requires AllLived(nodes, root)
    ensures AllLived(Assign(nodes, ids, t), root)
    ensures AllLived(Unassign(nodes, n), root)
    ensures AllLived(Release(nodes, t), root)
  {
    forall id | id in nodes
      ensures Lived(nodes[id].(assignedTo := Some(t)), root) && Lived(nodes[id].(assignedTo := None), root)
    {
      LivesOn(nodes[id], Owned(Some(t)), root);
      LivesOn(nodes[id], Owned(None), root);
    }
  }

  /** In every such store: counters in range, and a score that is the bound of the counters it stands on. */
  lemma StoredEvidence(nodes: Nodes, id: NodeId, root: real -> real)
    requires AllLived(nodes, root) && id in nodes
    ensures var n := nodes[id];
            && 0 <= n.probeOk <= n.probeTotal
            && (n.score.Some? <==> n.probeTotal >= 1)
            && (n.score.Some? ==>
                  n.score.value == WilsonLower(n.probeOk, n.probeTotal, root(Radicand(n.probeOk, n.probeTotal))))
  {
    var first, events :| nodes[id] == Life(first, events, root);
    CountersInRange(first, events, root);
    ScoreIsBound(first, events, root);
    CountersRefine(first, events, root);
  }

  /** A pass judges each row it has a verdict for exactly once, and no other. */
  lemma {:induction false} JudgedOnce(nodes: Nodes, verdicts: Verdicts, mode: Mode, now: real,
                                      root: real -> real, id: NodeId)
    requires forall i, j :: 0 <= i < j < |verdicts| ==> verdicts[i].0 != verdicts[j].0
    requires id in nodes
    ensures var after := JudgeAll(nodes, verdicts, mode, now, root);
            && after.Keys == nodes.Keys
            && (forall r :: (id, r) in verdicts ==> after[id] == Judge(nodes[id], r, mode, now, root))
            && ((forall r :: (id, r) !in verdicts) ==> after[id] == nodes[id])
  {
    if verdicts != [] {
      var init, last := verdicts[..|verdicts| - 1], verdicts[|verdicts| - 1];
      JudgedOnce(nodes, init, mode, now, root, id);
      assert verdicts == init + [last];
      assert forall i :: 0 <= i < |init| ==> verdicts[i] == init[i] && init[i].0 != last.0;
    }
  }
}
