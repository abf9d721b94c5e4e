/**
  The scheduler, the assigner and the tunnel handlers as the methods they are: each is proved
  to do to the engine's state what its step of the machine says.
 */
module EngineRuntime {
  import opened Collections
  import opened Wrappers
  import opened EngineStore
  import opened HealthProtocol
  import Scoring

  datatype Settings = Settings(stability: bool, policy: Scoring.Policy, maxMisses: int)

  function Names(rows: seq<Scoring.Rated>): seq<NodeId> {
    seq(|rows|, i requires 0 <= i < |rows| => rows[i].id)
  }

  /** The rows of the free nodes, each once. */
  ghost predicate FreeRows(nodes: Nodes, rows: seq<Scoring.Rated>) {
    && (forall i, j :: 0 <= i < j < |rows| ==> rows[i].id != rows[j].id)
    && (forall r :: r in rows ==> r.id in Free(nodes) && r.row == nodes[r.id])
    && (forall n :: n in Free(nodes) ==> Scoring.Rated(n, nodes[n]) in rows)
  }

  /** The key the settings sort by. */
  function KeyOf(s: Settings, percentiles: map<NodeId, real>, clock: Scoring.Clock, root: real -> real)
    : Scoring.Rated -> Scoring.Key
  {
    if s.stability then Scoring.ScoreKeys(percentiles, s.policy, clock.judged, root)
    else (r: Scoring.Rated) => Scoring.SpeedKey(r)
  }

  /** An ordering of the free nodes: as loaded, their speed percentiles, and as sorted. */
  datatype Ranking = Ranking(loaded: seq<Scoring.Rated>, percentiles: map<NodeId, real>, rows: seq<Scoring.Rated>) {
    function Order(): seq<NodeId> { Names(rows) }
  }

  /** The loaded rows in the order the settings ask for, ties by latency. */
  ghost predicate Orders(s: Settings, clock: Scoring.Clock, root: real -> real, r: Ranking) {
    var kept := Scoring.Kept(r.loaded, clock.ranked, s.policy.maxAgeS);
    && multiset(r.rows) == multiset(r.loaded)
    && (s.stability ==> Scoring.IsSpeedMap(kept, Scoring.ProtocolsOf(kept), r.percentiles))
    && Scoring.InOrder(r.rows, KeyOf(s, r.percentiles, clock, root))
    && Scoring.TiesByLatency(r.rows, KeyOf(s, r.percentiles, clock, root))
  }

  /** A ranking of the free nodes, best first. */
  ghost predicate BestFirst(nodes: Nodes, s: Settings, clock: Scoring.Clock, root: real -> real, r: Ranking) {
    IsRanking(nodes, r.Order()) && FreeRows(nodes, r.loaded) && FreeRows(nodes, r.rows) && Orders(s, clock, root, r)
  }

  /** What the settings prefer: the better tier and composite score, or the higher speed. */
  predicate Prefers(s: Settings, percentiles: map<NodeId, real>, clock: Scoring.Clock, root: real -> real,
                    n: Scoring.Rated, m: Scoring.Rated) {
    if s.stability then Scoring.Beats(n, m, percentiles, s.policy, clock.judged, root) else Scoring.Faster(n, m)
  }

  /** No free node left out is preferred to one granted. */
  ghost predicate Greedy(nodes: Nodes, s: Settings, clock: Scoring.Clock, root: real -> real,
                         percentiles: map<NodeId, real>, granted: set<NodeId>) {
    && granted <= Free(nodes) <= nodes.Keys
    && forall n, m :: n in granted && m in Free(nodes) - granted ==>
         !Prefers(s, percentiles, clock, root, Scoring.Rated(m, nodes[m]), Scoring.Rated(n, nodes[n]))
  }

  lemma KeyPrefers(s: Settings, percentiles: map<NodeId, real>, clock: Scoring.Clock, root: real -> real,
                   n: Scoring.Rated, m: Scoring.Rated)
    requires var key := KeyOf(s, percentiles, clock, root); Scoring.Leq(key(n), key(m))
    ensures !Prefers(s, percentiles, clock, root, m, n)
  {
    if s.stability {
      Scoring.KeyMeans(n, m, percentiles, s.policy, clock.judged, root);
    } else {
      Scoring.SpeedKeyMeans(n, m);
    }
  }

  /** Granting the front of a best-first ranking is greedy, whatever its length. */
  lemma PrefixGreedy(nodes: Nodes, s: Settings, clock: Scoring.Clock, root: real -> real, r: Ranking, room: int)
    requires BestFirst(nodes, s, clock, root, r)
    ensures Greedy(nodes, s, clock, root, r.percentiles, Elements(Prefix(r.Order(), room)))
  {
    hide Prefers, KeyOf, Scoring.IsSpeedMap, Scoring.TiesByLatency;
    var granted := Prefix(r.Order(), room);
    FreeStored(nodes);
    forall n | n in granted ensures n in Free(nodes) { assert n in Elements(r.Order()); }
    forall n, m | n in granted && m in Free(nodes) - Elements(granted)
      ensures !Prefers(s, r.percentiles, clock, root, Scoring.Rated(m, nodes[m]), Scoring.Rated(n, nodes[n]))
    {
      var i :| 0 <= i < |granted| && granted[i] == n;
      assert m in Elements(r.Order());
      var j :| 0 <= j < |r.rows| && r.Order()[j] == m;
      assert r.rows[i] in r.rows && r.rows[j] in r.rows;
      forall k | 0 <= k < |granted| ensures r.Order()[k] != m { assert granted[k] in granted; }
      assert j >= |granted|;
      KeyPrefers(s, r.percentiles, clock, root, r.rows[i], r.rows[j]);
    }
  }

  lemma NamesRank(nodes: Nodes, rows: seq<Scoring.Rated>)
    requires FreeRows(nodes, rows)
    ensures IsRanking(nodes, Names(rows))
  {
    var order := Names(rows);
    forall n ensures n in Elements(order) <==> n in Free(nodes) {
      if n in Free(nodes) {
        var i :| 0 <= i < |rows| && rows[i] == Scoring.Rated(n, nodes[n]);
        assert order[i] == n;
      }
      if n in order {
        var i :| 0 <= i < |order| && order[i] == n;
        assert rows[i] in rows;
      }
    }
  }

  /** A sorted copy of the free rows still holds each once. */
  lemma SortedFree(nodes: Nodes, rows: seq<Scoring.Rated>, sorted: seq<Scoring.Rated>)
    requires FreeRows(nodes, rows) && multiset(sorted) == multiset(rows)
    ensures FreeRows(nodes, sorted)
  {
    forall r ensures r in sorted <==> r in rows {
      assert r in sorted <==> r in multiset(sorted);
      assert r in rows <==> r in multiset(rows);
    }
    forall i, j | 0 <= i < j < |sorted| ensures sorted[i].id != sorted[j].id {
      OncePerRow(rows, sorted, i, j);
    }
  }

  lemma OncePerRow(rows: seq<Scoring.Rated>, sorted: seq<Scoring.Rated>, i: int, j: int)
    requires multiset(sorted) == multiset(rows) && 0 <= i < j < |sorted|
    requires forall a, b :: 0 <= a < b < |rows| ==> rows[a].id != rows[b].id
    ensures sorted[i].id != sorted[j].id
  {
    if sorted[i].id == sorted[j].id {
      assert sorted[i] in multiset(rows) && sorted[j] in multiset(rows);
      var a :| 0 <= a < |rows| && rows[a] == sorted[i];
      var b :| 0 <= b < |rows| && rows[b] == sorted[j];
      assert a == b;
      assert sorted == sorted[..j] + [sorted[j]] + sorted[j + 1..];
      assert multiset(sorted)[sorted[i]] >= 2;
      OneOf(rows, a);
    }
  }

  lemma OneOf(rows: seq<Scoring.Rated>, a: int)
    requires 0 <= a < |rows| && forall b, c :: 0 <= b < c < |rows| ==> rows[b].id != rows[c].id
    ensures multiset(rows)[rows[a]] == 1
  {
    assert rows == rows[..a] + [rows[a]] + rows[a + 1..];
    assert rows[a] !in rows[..a] && rows[a] !in rows[a + 1..];
  }

  lemma SomeFreeRows(nodes: Nodes, free: set<NodeId>) returns (rows: seq<Scoring.Rated>)
    requires free <= Free(nodes)
    ensures forall i, j :: 0 <= i < j < |rows| ==> rows[i].id != rows[j].id
    ensures forall r :: r in rows ==> r.id in free && r.row == nodes[r.id]
    ensures forall n :: n in free ==> Scoring.Rated(n, nodes[n]) in rows
  {
    if free == {} {
      rows := [];
    } else {
      var n :| n in free;
      rows := SomeFreeRows(nodes, free - {n});
      rows := rows + [Scoring.Rated(n, nodes[n])];
    }
  }

  lemma SomeRanking(nodes: Nodes) returns (r: Ranking)
    ensures IsRanking(nodes, r.Order())
  {
    var rows := SomeFreeRows(nodes, Free(nodes));
    NamesRank(nodes, rows);
    r := Ranking([], map[], rows);
  }

  // ----- The assigner -----

  /** Read before: by latency, NULL first. */
  predicate LoadedFirst(nodes: Nodes, n: NodeId, m: NodeId)
    requires n in nodes && m in nodes
  {
    Scoring.LoadedBefore(Scoring.Rated(n, nodes[n]), Scoring.Rated(m, nodes[m]))
  }

  /** The free rows but for those of `left`, each once, by latency, none behind a row of `left`. */
  ghost predicate LoadedBut(nodes: Nodes, left: set<NodeId>, rows: seq<Scoring.Rated>) {
    && left <= Free(nodes) && Scoring.ByLatency(rows)
    && (forall i, j :: 0 <= i < j < |rows| ==> rows[i].id != rows[j].id)
    && (forall r :: r in rows ==> r.id in Free(nodes) - left && r.row == nodes[r.id])
    && (forall n :: n in Free(nodes) - left ==> Scoring.Rated(n, nodes[n]) in rows)
    && (forall r, m :: r in rows && m in left ==> LoadedFirst(nodes, r.id, m))
  }

  lemma OneMoreLoaded(nodes: Nodes, left: set<NodeId>, rows: seq<Scoring.Rated>, n: NodeId)
    requires LoadedBut(nodes, left, rows) && n in left && forall m :: m in left ==> LoadedFirst(nodes, n, m)
    ensures LoadedBut(nodes, left - {n}, rows + [Scoring.Rated(n, nodes[n])])
  {
    hide Free, Scoring.LoadedBefore;
    FreeStored(nodes);
    var more := rows + [Scoring.Rated(n, nodes[n])];
    forall i, j | 0 <= i < j < |more|
      ensures more[i].id != more[j].id && Scoring.LoadedBefore(more[i], more[j])
    {
      assert i < |rows| && more[i] == rows[i] && rows[i] in rows;
      if j == |rows| { assert LoadedFirst(nodes, rows[i].id, n); }
    }
    forall m | m in Free(nodes) - (left - {n}) ensures Scoring.Rated(m, nodes[m]) in more {
      if m == n { assert more[|rows|] == Scoring.Rated(n, nodes[n]); }
    }
  }

  /** `load_nodes(state="alive")` without the nodes in use: ordered by latency, NULL first. */
  method LoadFree(store: Store) returns (rows: seq<Scoring.Rated>)
    ensures FreeRows(store.nodes, rows) && Scoring.ByLatency(rows)
  {
    hide LoadedFirst, Free;
    rows := [];
    var left := Free(store.nodes);
    FreeStored(store.nodes);
    while left != {}
      invariant LoadedBut(store.nodes, left, rows)
      decreases |left|
    {
      ghost var first := FirstExists(store.nodes, left);
      var n :| n in left && forall m :: m in left ==> LoadedFirst(store.nodes, n, m);
      OneMoreLoaded(store.nodes, left, rows, n);
      rows := rows + [Scoring.Rated(n, store.nodes[n])];
      left := left - {n};
    }
  }

  lemma FreeStored(nodes: Nodes)
    ensures Free(nodes) <= nodes.Keys
  {
  }

  lemma FirstExists(nodes: Nodes, left: set<NodeId>) returns (n: NodeId)
    requires left != {} && left <= nodes.Keys
    ensures n in left && forall m :: m in left ==> LoadedFirst(nodes, n, m)
  {
    var x :| x in left;
    if left == {x} {
      n := x;
    } else {
      var y := FirstExists(nodes, left - {x});
      n := if LoadedFirst(nodes, x, y) then x else y;
      forall m | m in left ensures LoadedFirst(nodes, n, m) {
        if m != x { assert LoadedFirst(nodes, y, m); }
      }
    }
  }

  /** `_free_nodes`: scored when stability is on, by speed when it is off. */
  method FreeNodes(store: Store, s: Settings, clock: Scoring.Clock, root: real -> real)
    returns (order: seq<NodeId>, ghost ranking: Ranking)
    ensures IsRanking(store.nodes, order)
    ensures BestFirst(store.nodes, s, clock, root, ranking) && order == ranking.Order()
  {
    var free := LoadFree(store);
    var percentiles := map[];
    if s.stability {
      percentiles := Scoring.SpeedPercentileMap(free, clock.ranked, s.policy.maxAgeS);
    }
    var key := KeyOf(s, percentiles, clock, root);
    var sorted :=
      if s.stability then Scoring.ScoreNodes(free, percentiles, s.policy, clock.judged, root)
      else Scoring.SortBy(free, key);
    Scoring.SortedStably(free, key, Scoring.Key(0, 0.0, false));
    Scoring.SortKeepsLoadOrder(free, key);
    SortedFree(store.nodes, free, sorted);
    NamesRank(store.nodes, sorted);
    order, ranking := Names(sorted), Ranking(free, percentiles, sorted);
  }

  function Prefix(order: seq<NodeId>, room: int): seq<NodeId> {
    if room <= 0 then [] else if room < |order| then order[..room] else order
  }

  /** `assign_new`. */
  method AssignNew(store: Store, s: Settings, t: TunnelId, requested: int, clock: Scoring.Clock, root: real -> real)
    returns (granted: seq<NodeId>, ghost ranking: Ranking)
    modifies store`nodes
    ensures BestFirst(old(store.nodes), s, clock, root, ranking) && granted == Prefix(ranking.Order(), requested)
    ensures Greedy(old(store.nodes), s, clock, root, ranking.percentiles, Elements(granted))
    ensures store.nodes == Assign(old(store.nodes), Elements(granted), t)
  {
    hide Greedy, BestFirst;
    var order;
    order, ranking := FreeNodes(store, s, clock, root);
    granted := Prefix(order, requested);
    PrefixGreedy(store.nodes, s, clock, root, ranking, requested);
    if granted != [] {
      store.AssignNodes(granted, t);
    } else {
      AssignNobody(store.nodes, t);
    }
  }

  lemma AssignNobody(nodes: Nodes, t: TunnelId)
    ensures Elements<NodeId>([]) == {} && Assign(nodes, {}, t) == nodes
  {
  }

  class Engine {
    const store: Store
    const settings: Settings
    var strikes: map<Key, int>
    var rendered: map<TunnelId, set<NodeId>>
    var pending: set<TunnelId>
    var busy: set<TunnelId>

    constructor (store: Store, settings: Settings)
      ensures this.store == store && this.settings == settings
      ensures View() == HealthProtocol.Engine(store.nodes, store.tunnels, map[], map[], {}, {})
    {
      this.store, this.settings := store, settings;
      strikes, rendered, pending, busy := map[], map[], {}, {};
    }

    ghost function View(): HealthProtocol.Engine
      reads this, store
    {
      HealthProtocol.Engine(store.nodes, store.tunnels, strikes, rendered, pending, busy)
    }

    /** `_bump_granted`. */
    method BumpGranted(t: TunnelId, delta: int)
      modifies store`tunnels
      ensures View() == Bumped(old(View()), t, delta)
    {
      var tunnel := store.GetTunnel(t);
      if tunnel.None? { return; }
      var count := tunnel.value.granted + delta;
      if count < 0 { count := 0; }
      store.SaveTunnel(t, tunnel.value.(granted := count, state := Running));
    }

    /** `_apply_health_verdicts`. */
    method ApplyHealthVerdicts(t: TunnelId, snap: seq<NodeId>, results: map<NodeId, bool>) returns (swapped: nat)
      requires Covers(results, snap)
      modifies this`strikes, store
      ensures View() == Judged(old(View()), t, snap, results, settings.maxMisses)
      ensures swapped == SwapCount(old(View()), t, snap, results, settings.maxMisses)
    {
      swapped := 0;
      ghost var e := View();
      for i := 0 to |snap|
        invariant View() == Judged(e, t, snap[..i], results, settings.maxMisses)
        invariant swapped == SwapCount(e, t, snap[..i], results, settings.maxMisses)
      {
        assert snap[..i + 1][..i] == snap[..i];
        ghost var before := View();
        var n := snap[i];
        var died := JudgeNode(t, n, results[n]);
        if died { swapped := swapped + 1; }
      }
      assert snap[..|snap|] == snap;
    }

    /** The body of that loop. */
    method JudgeNode(t: TunnelId, n: NodeId, alive: bool) returns (swapped: bool)
      modifies this`strikes, store
      ensures View() == JudgeOne(old(View()), t, n, alive, settings.maxMisses)
      ensures swapped == SwapsOut(old(View()), Key(t, n), alive, settings.maxMisses)
    {
      var k := Key(t, n);
      swapped := false;
      if alive {
        strikes := strikes - {k};
        return;
      }
      strikes := strikes[k := (if k in strikes then strikes[k] else 0) + 1];
      if strikes[k] < settings.maxMisses { return; }
      assert strikes - {k} == old(strikes) - {k};
      strikes := strikes - {k};
      store.UnassignNode(n);
      BumpGranted(t, -1);
      swapped := true;
    }

    /** `top_up`: toward the requested count, from the front of the free nodes. */
    method TopUp(t: TunnelId, target: int, clock: Scoring.Clock, root: real -> real)
      returns (added: seq<NodeId>, ghost ranking: Ranking)
      modifies store`nodes
      ensures BestFirst(old(store.nodes), settings, clock, root, ranking)
      ensures added == if t in store.tunnels then Prefix(ranking.Order(), target - store.tunnels[t].granted) else []
      ensures Greedy(old(store.nodes), settings, clock, root, ranking.percentiles, Elements(added))
      ensures store.nodes == Assign(old(store.nodes), Elements(added), t)
    {
      hide Greedy, BestFirst;
      var order;
      order, ranking := FreeNodes(store, settings, clock, root);
      var tunnel := store.GetTunnel(t);
      added := [];
      AssignNobody(store.nodes, t);
      PrefixGreedy(store.nodes, settings, clock, root, ranking, 0);
      if tunnel.None? { return; }
      var room := target - tunnel.value.granted;
      if room <= 0 { return; }
      added := Prefix(order, room);
      PrefixGreedy(store.nodes, settings, clock, root, ranking, room);
      if added != [] {
        store.AssignNodes(added, t);
      }
    }

    /** `_after_provision`. */
    method AfterProvision(t: TunnelId, clock: Scoring.Clock, root: real -> real)
      returns (added: nat, ghost ranking: Ranking)
      modifies store
      ensures IsRanking(old(store.nodes), ranking.Order())
      ensures t in old(store.tunnels) && old(store.tunnels)[t].Degraded() ==>
                BestFirst(old(store.nodes), settings, clock, root, ranking)
      ensures View() == Provisioned(old(View()), t, ranking.Order())
      ensures added == |TopUpIds(old(View()), t, ranking.Order())|
    {
      var tunnel := store.GetTunnel(t);
      added := 0;
      if tunnel.None? || !tunnel.value.Degraded() {
        ranking := SomeRanking(store.nodes);
        return;
      }
      var ids;
      ids, ranking := TopUp(t, tunnel.value.requested, clock, root);
      assert ids == TopUpIds(old(View()), t, ranking.Order());
      added := |ids|;
      if added > 0 {
        BumpGranted(t, added);
      } else {
        AssignNobody(old(store.nodes), t);
      }
    }

    /** The start of `health_check`: one pass per tunnel at a time. */
    method Begin(t: TunnelId) returns (entered: bool)
      modifies this`busy
      ensures entered == (t !in old(busy)) && busy == old(busy) + {t}
    {
      entered := t !in busy;
      busy := busy + {t};
    }

    /** Its end, whatever happened in between. */
    method End(t: TunnelId)
      modifies this`busy
      ensures busy == old(busy) - {t}
    {
      busy := busy - {t};
    }

    /** The locked section of `_run_health_pass`; `None` when the tunnel is not serving. */
    method Commit(t: TunnelId, snap: seq<NodeId>, results: map<NodeId, bool>, clock: Scoring.Clock, root: real -> real)
      returns (outcome: Option<(nat, nat, bool)>, ghost ranking: Ranking)
      requires Covers(results, snap)
      modifies this`strikes, this`pending, store
      ensures outcome.Some? == Serving(old(View()), t)
      ensures IsRanking(Judged(old(View()), t, snap, results, settings.maxMisses).nodes, ranking.Order())
      ensures View() == Committed(old(View()), t, snap, results, settings.maxMisses, ranking.Order())
      ensures outcome.Some? ==>
                var judged := Judged(old(View()), t, snap, results, settings.maxMisses);
                t in judged.tunnels && judged.tunnels[t].Degraded() ==>
                  BestFirst(judged.nodes, settings, clock, root, ranking)
      ensures outcome.Some? ==> outcome.value.0 == SwapCount(old(View()), t, snap, results, settings.maxMisses)
      ensures outcome.Some? ==>
                outcome.value.1 ==
                |TopUpIds(Judged(old(View()), t, snap, results, settings.maxMisses), t, ranking.Order())|
      ensures outcome.Some? ==> outcome.value.2 == (t in pending)
    {
      ghost var judged := Judged(View(), t, snap, results, settings.maxMisses);
      ranking := SomeRanking(judged.nodes);
      var tunnel := store.GetTunnel(t);
      if tunnel.None? || tunnel.value.state == Starting || tunnel.value.state == Stopped {
        return None, ranking;
      }
      var swapped, added := 0, 0;
      if snap != [] {
        swapped := ApplyHealthVerdicts(t, snap, results);
      }
      added, ranking := AfterProvision(t, clock, root);
      if swapped > 0 || added > 0 {
        pending := pending + {t};
      }
      outcome := Some((swapped, added, t in pending));
    }

    /**
      `_redeploy` up to the update: what would be served, or `None` when there is nothing to
      do, an unchanged config settling the tunnel.
     */
    method PlanRedeploy(t: TunnelId, force: bool) returns (plan: Option<set<NodeId>>)
      modifies this`pending
      ensures plan.Some? ==> plan.value == Servable(store.nodes, t) && pending == old(pending)
      ensures plan.Some? <==> Serving(View(), t) && (force || t !in rendered || rendered[t] != Servable(store.nodes, t))
      ensures plan.None? ==> pending == if Serving(View(), t) then old(pending) - {t} else old(pending)
    {
      var tunnel := store.GetTunnel(t);
      if tunnel.None? || tunnel.value.state == Starting || tunnel.value.state == Stopped {
        return None;
      }
      var signature := Servable(store.nodes, t);
      if !force && t in rendered && rendered[t] == signature {
        pending := pending - {t};
        return None;
      }
      plan := Some(signature);
    }

    /** The rest of `_redeploy`, once the update has answered. */
    method FinishRedeploy(t: TunnelId, signature: set<NodeId>, updated: bool) returns (rolled: bool)
      modifies this`rendered, this`pending
      ensures rolled == updated
      ensures rendered == if updated then old(rendered)[t := signature] else old(rendered)
      ensures pending == if updated then old(pending) - {t} else old(pending)
    {
      if !updated { return false; }
      rendered := rendered[t := signature];
      pending := pending - {t};
      rolled := true;
    }

    /** `forget_tunnel`. */
    method ForgetTunnel(t: TunnelId)
      modifies this
      ensures View() == Forgotten(old(View()), t)
    {
      var left := set k | k in strikes && k.tunnel == t;
      while left != {}
        invariant left <= strikes.Keys && forall k :: k in left ==> k.tunnel == t
        invariant forall k :: k in old(strikes) ==>
                    (k in strikes <==> k.tunnel != t || k in left) && (k in strikes ==> strikes[k] == old(strikes)[k])
        invariant strikes.Keys <= old(strikes).Keys
        invariant rendered == old(rendered) && pending == old(pending) && busy == old(busy)
        decreases |left|
      {
        var k :| k in left;
        strikes := strikes - {k};
        left := left - {k};
      }
      busy := busy - {t};
      rendered := rendered - {t};
      pending := pending - {t};
      assert strikes == Forgotten(old(View()), t).strikes;
    }

    /** `Assigner.release_tunnel`, then the row: also the create's rollback. */
    method DropTunnel(t: TunnelId)
      modifies store
      ensures View() == Dropped(old(View()), t)
    {
      var freed := store.ReleaseTunnel(t);
      var tunnel := store.GetTunnel(t);
      if tunnel.Some? && tunnel.value.granted != 0 {
        store.SaveTunnel(t, tunnel.value.(granted := 0));
      }
      store.DeleteTunnel(t);
    }

    /** The DELETE handler, past the container's stop; `false` is a 404. */
    method DeleteTunnel(t: TunnelId) returns (found: bool)
      modifies this, store
      ensures found == (t in old(store.tunnels))
      ensures View() == if found then Forgotten(Dropped(old(View()), t), t) else old(View())
    {
      var tunnel := store.GetTunnel(t);
      found := tunnel.Some?;
      if found {
        DropTunnel(t);
        ForgetTunnel(t);
      }
    }

    /** The POST handler up to its container: nodes granted, the row saved as starting. */
    method BeginCreate(t: TunnelId, requested: int, clock: Scoring.Clock, root: real -> real)
      returns (granted: seq<NodeId>, ghost ranking: Ranking)
      requires requested >= 1
      modifies store
      ensures BestFirst(old(store.nodes), settings, clock, root, ranking)
      ensures Greedy(old(store.nodes), settings, clock, root, ranking.percentiles, Elements(granted))
      ensures granted == Prefix(ranking.Order(), requested)
      ensures store.nodes == Assign(old(store.nodes), Elements(granted), t)
      ensures store.tunnels == old(store.tunnels)[t := Tunnel(Starting, requested, |granted|)]
    {
      granted, ranking := AssignNew(store, settings, t, requested, clock, root);
      store.SaveTunnel(t, Tunnel(Starting, requested, |granted|));
    }

    /** The rest of it, the container being up: the handler's own copy of the row is saved. */
    method FinishCreate(t: TunnelId, requested: int, granted: seq<NodeId>)
      modifies this`rendered, store`tunnels
      ensures store.tunnels == old(store.tunnels)[t := Tunnel(Running, requested, |granted|)]
      ensures rendered == old(rendered)[t := Elements(granted)]
    {
      store.SaveTunnel(t, Tunnel(Running, requested, |granted|));
      rendered := rendered[t := Elements(granted)];
    }

    /** Boot reconciliation: orphaned assignments are freed, tunnels not stopped marked running. */
    method Reconcile()
      modifies store
      ensures forall n :: n in store.nodes && store.nodes[n].assignedTo.Some? ==>
                store.nodes[n].assignedTo.value in store.tunnels
      ensures store.nodes.Keys == old(store.nodes).Keys && store.tunnels.Keys == old(store.tunnels).Keys
      ensures forall n :: n in store.nodes ==>
                var owner := old(store.nodes)[n].assignedTo;
                store.nodes[n] == if owner.Some? && owner.value !in store.tunnels
                                  then old(store.nodes)[n].(assignedTo := None) else old(store.nodes)[n]
      ensures forall t :: t in store.tunnels ==>
                store.tunnels[t] == if old(store.tunnels)[t].state == Stopped then old(store.tunnels)[t]
                                    else old(store.tunnels)[t].(state := Running)
    {
      var expected := set t | t in store.tunnels && store.tunnels[t].state != Stopped;
      var owners := set n | n in store.nodes && store.nodes[n].assignedTo.Some? :: store.nodes[n].assignedTo.value;
      var orphans := owners - store.tunnels.Keys;
      FreeOrphans(orphans);
      MarkRunning(expected);
    }

    method MarkRunning(expected: set<TunnelId>)
      requires expected <= store.tunnels.Keys
      modifies store`tunnels
      ensures store.tunnels.Keys == old(store.tunnels).Keys
      ensures forall t :: t in store.tunnels ==>
                store.tunnels[t] ==
                if t in expected then old(store.tunnels)[t].(state := Running) else old(store.tunnels)[t]
    {
      var left := expected;
      while left != {}
        invariant left <= expected && store.tunnels.Keys == old(store.tunnels).Keys
        invariant forall t :: t in store.tunnels ==>
                    store.tunnels[t] == if t in expected - left then old(store.tunnels)[t].(state := Running)
                                        else old(store.tunnels)[t]
        decreases |left|
      {
        var t :| t in left;
        store.SaveTunnel(t, store.tunnels[t].(state := Running));
        left := left - {t};
      }
    }

    method FreeOrphans(orphans: set<TunnelId>)
      modifies store`nodes
      ensures store.nodes.Keys == old(store.nodes).Keys
      ensures forall n :: n in store.nodes ==>
                var owner := old(store.nodes)[n].assignedTo;
                store.nodes[n] == if owner.Some? && owner.value in orphans
                                  then old(store.nodes)[n].(assignedTo := None) else old(store.nodes)[n]
    {
      var left := orphans;
      while left != {}
        invariant left <= orphans && store.nodes.Keys == old(store.nodes).Keys
        invariant forall n :: n in store.nodes ==>
                    var owner := old(store.nodes)[n].assignedTo;
                    store.nodes[n] == if owner.Some? && owner.value in orphans - left
                                      then old(store.nodes)[n].(assignedTo := None) else old(store.nodes)[n]
        decreases |left|
      {
        var orphan :| orphan in left;
        var freed := store.ReleaseTunnel(orphan);
        left := left - {orphan};
      }
    }
  }
}
