/** One source refresh: which nodes it probes, and that each gets exactly one verdict. */
module ProbeBudget {
  import opened Collections
  import opened EngineStore

  /** The order in which untested protocols get the budget. */
  const PROBE_TIERS: seq<set<Protocol>> :=
    [{Vless, Trojan, Ss}, {Vmess, Tuic, Hysteria2, Ssr}, {Http, Socks5}]

  function TierOf(p: Protocol): (t: nat)
    ensures t < |PROBE_TIERS| && p in PROBE_TIERS[t]
    ensures forall u :: 0 <= u < |PROBE_TIERS| && p in PROBE_TIERS[u] ==> u == t
  {
    match p
    case Vless | Trojan | Ss => 0
    case Vmess | Tuic | Hysteria2 | Ssr => 1
    case Http | Socks5 => 2
  }

  function Unjudged(nodes: Nodes): set<NodeId> { set n | n in nodes && nodes[n].state == NodeState.Untested }

  /** The untested nodes of the first `t` tiers. */
  function UnjudgedBelow(nodes: Nodes, t: nat): set<NodeId> {
    set n | n in nodes && nodes[n].state == NodeState.Untested && TierOf(nodes[n].protocol) < t
  }

  function DeadOf(nodes: Nodes, source: string): set<NodeId> {
    set n | n in nodes && nodes[n].state == Dead && nodes[n].source == source
  }

  function Least(a: int, b: int): int { if a <= b then a else b }

  function AtLeastZero(a: int): nat { if a < 0 then 0 else a }

  /** SQLite's LIMIT: none when negative. */
  function Limited(limit: int, n: nat): nat {
    if 0 <= limit < n then limit else n
  }

  /** Text order, character by character, as SQLite compares ids. */
  predicate TextLeq(a: string, b: string) {
    a == "" || (b != "" && (a[0] < b[0] || (a[0] == b[0] && TextLeq(a[1..], b[1..]))))
  }

  lemma {:induction false} TextTotal(a: string, b: string)
    ensures TextLeq(a, b) || TextLeq(b, a)
  {
    if a != "" && b != "" && a[0] == b[0] { TextTotal(a[1..], b[1..]); }
  }

  lemma {:induction false} TextTransitive(a: string, b: string, c: string)
    requires TextLeq(a, b) && TextLeq(b, c)
    ensures TextLeq(a, c)
  {
    if a != "" && a[0] == b[0] == c[0] { TextTransitive(a[1..], b[1..], c[1..]); }
  }

  /** ORDER BY first_seen_s, node_id. */
  predicate Older(nodes: Nodes, a: NodeId, b: NodeId) {
    && a in nodes && b in nodes
    && (nodes[a].firstSeenS < nodes[b].firstSeenS
        || (nodes[a].firstSeenS == nodes[b].firstSeenS && TextLeq(a, b)))
  }

  /** No one left out comes before one taken. */
  ghost predicate OldestTaken(nodes: Nodes, wanted: set<NodeId>, taken: set<NodeId>) {
    forall a, b :: a in taken && b in wanted - taken ==> Older(nodes, a, b)
  }

  lemma OlderTransitive(nodes: Nodes, x: NodeId, y: NodeId, m: NodeId)
    requires Older(nodes, x, y) && Older(nodes, y, m)
    ensures Older(nodes, x, m)
  {
    if nodes[x].firstSeenS == nodes[m].firstSeenS { TextTransitive(x, y, m); }
  }

  lemma OldestExists(nodes: Nodes, left: set<NodeId>) returns (n: NodeId)
    requires left != {} && left <= nodes.Keys
    ensures n in left && forall m :: m in left ==> Older(nodes, n, m)
  {
    var x :| x in left;
    if left == {x} {
      n := x;
      TextTotal(x, x);
    } else {
      var y := OldestExists(nodes, left - {x});
      TextTotal(x, y);
      TextTotal(x, x);
      n := if Older(nodes, x, y) then x else y;
      forall m | m in left ensures Older(nodes, n, m) {
        if m != x && n == x { OlderTransitive(nodes, x, y, m); }
      }
    }
  }

  /** `load_nodes(.., limit=.., oldest_first=True)` over the rows that match. */
  method LoadOldest(nodes: Nodes, wanted: set<NodeId>, limit: int) returns (rows: seq<NodeId>)
    requires wanted <= nodes.Keys
    ensures Distinct(rows) && Elements(rows) <= wanted && |rows| == Limited(limit, |wanted|)
    ensures OldestTaken(nodes, wanted, Elements(rows))
    ensures forall i, j :: 0 <= i < j < |rows| ==> Older(nodes, rows[i], rows[j])
  {
    hide Older;
    rows := [];
    var left := wanted;
    while |rows| < Limited(limit, |wanted|)
      invariant Distinct(rows) && Elements(rows) == wanted - left && left <= wanted
      invariant |rows| + |left| == |wanted| && |rows| <= Limited(limit, |wanted|)
      invariant forall a, b :: a in Elements(rows) && b in left ==> Older(nodes, a, b)
      invariant forall i, j :: 0 <= i < j < |rows| ==> Older(nodes, rows[i], rows[j])
      decreases |left|
    {
      ghost var oldest := OldestExists(nodes, left);
      var n :| n in left && forall m :: m in left ==> Older(nodes, n, m);
      ElementsGrow(rows, n);
      forall i | 0 <= i < |rows| ensures Older(nodes, rows[i], n) { assert rows[i] in Elements(rows); }
      rows := rows + [n];
      left := left - {n};
    }
  }

  lemma ElementsGrow(s: seq<NodeId>, n: NodeId)
    requires Distinct(s) && n !in Elements(s)
    ensures Distinct(s + [n]) && Elements(s + [n]) == Elements(s) + {n}
  {
  }

  lemma ElementsJoin(s: seq<NodeId>, t: seq<NodeId>)
    requires Distinct(s) && Distinct(t) && Elements(s) !! Elements(t)
    ensures Distinct(s + t) && Elements(s + t) == Elements(s) + Elements(t)
  {
    forall i, j | 0 <= i < |s| && 0 <= j < |t| ensures s[i] != t[j] {
      assert s[i] in Elements(s) && t[j] in Elements(t);
    }
  }

  /** An earlier tier, or the same tier and not seen later. */
  predicate Ahead(nodes: Nodes, a: NodeId, b: NodeId) {
    && a in nodes && b in nodes
    && (TierOf(nodes[a].protocol) < TierOf(nodes[b].protocol)
        || (TierOf(nodes[a].protocol) == TierOf(nodes[b].protocol) && Older(nodes, a, b)))
  }

  /** Distinct nodes of the pool, as many as the budget allows, none behind one left out. */
  ghost predicate IsSlice(nodes: Nodes, budget: int, pool: set<NodeId>, slice: seq<NodeId>) {
    && Distinct(slice) && Elements(slice) <= pool
    && |slice| == Least(AtLeastZero(budget), |pool|)
    && forall a, b :: a in Elements(slice) && b in pool - Elements(slice) ==> Ahead(nodes, a, b)
  }

  /** The tiered budget of `_probe_new`. */
  method SelectUntested(nodes: Nodes, budget: int) returns (slice: seq<NodeId>)
    ensures IsSlice(nodes, budget, Unjudged(nodes), slice)
  {
    hide Ahead, Distinct;
    slice := [];
    var t := 0;
    assert UnjudgedBelow(nodes, 0) == {};
    NoSlice(nodes, budget);
    while t < |PROBE_TIERS|
      invariant 0 <= t <= |PROBE_TIERS| && IsSlice(nodes, budget, UnjudgedBelow(nodes, t), slice)
    {
      if |slice| >= budget {
        FullSlice(nodes, budget, t, slice);
        break;
      }
      var tier := set n | n in nodes && nodes[n].state == NodeState.Untested && nodes[n].protocol in PROBE_TIERS[t];
      var more := LoadOldest(nodes, tier, budget - |slice|);
      TierAdded(nodes, budget, t, slice, tier, more);
      slice := slice + more;
      t := t + 1;
    }
    if t == |PROBE_TIERS| {
      assert UnjudgedBelow(nodes, t) == Unjudged(nodes);
    }
  }

  lemma NoSlice(nodes: Nodes, budget: int)
    ensures IsSlice(nodes, budget, {}, [])
  {
  }

  lemma FullSlice(nodes: Nodes, budget: int, t: nat, slice: seq<NodeId>)
    requires IsSlice(nodes, budget, UnjudgedBelow(nodes, t), slice) && |slice| >= budget
    ensures IsSlice(nodes, budget, Unjudged(nodes), slice)
  {
    SubsetCard(UnjudgedBelow(nodes, t), Unjudged(nodes));
    ElementsCard(slice);
    forall a, b | a in Elements(slice) && b in Unjudged(nodes) - Elements(slice) ensures Ahead(nodes, a, b) {
      if b !in UnjudgedBelow(nodes, t) { assert a in UnjudgedBelow(nodes, t); }
    }
  }

  lemma TierAdded(nodes: Nodes, budget: int, t: nat, slice: seq<NodeId>, tier: set<NodeId>, more: seq<NodeId>)
    requires t < |PROBE_TIERS| && IsSlice(nodes, budget, UnjudgedBelow(nodes, t), slice) && |slice| < budget
    requires tier == set n | n in nodes && nodes[n].state == NodeState.Untested && nodes[n].protocol in PROBE_TIERS[t]
    requires Distinct(more) && Elements(more) <= tier && |more| == Limited(budget - |slice|, |tier|)
    requires OldestTaken(nodes, tier, Elements(more))
    ensures IsSlice(nodes, budget, UnjudgedBelow(nodes, t + 1), slice + more)
  {
    hide Distinct, Ahead, UnjudgedBelow, Elements, Older, TierOf, OldestTaken;
    var below := UnjudgedBelow(nodes, t);
    AllTaken(nodes, budget, below, slice);
    TierJoins(nodes, t, tier);
    ElementsJoin(slice, more);
    SameTierAhead(nodes, t, tier, Elements(more));
    JoinAhead(nodes, below, tier, Elements(more));
  }

  /** A slice under its budget is the whole pool. */
  lemma AllTaken(nodes: Nodes, budget: int, pool: set<NodeId>, slice: seq<NodeId>)
    requires IsSlice(nodes, budget, pool, slice) && |slice| < budget
    ensures Elements(slice) == pool
  {
    hide Ahead, Distinct, Elements;
    assert Distinct(slice) && |slice| == |pool|;
    ElementsCard(slice);
    SubsetCard(Elements(slice), pool);
  }

  lemma JoinAhead(nodes: Nodes, below: set<NodeId>, tier: set<NodeId>, taken: set<NodeId>)
    requires taken <= tier
    requires forall a, b :: a in below && b in tier ==> Ahead(nodes, a, b)
    requires forall a, b :: a in taken && b in tier - taken ==> Ahead(nodes, a, b)
    ensures forall a, b :: a in below + taken && b in (below + tier) - (below + taken) ==> Ahead(nodes, a, b)
  {
    hide Ahead;
  }

  lemma TierJoins(nodes: Nodes, t: nat, tier: set<NodeId>)
    requires t < |PROBE_TIERS|
    requires tier == set n | n in nodes && nodes[n].state == NodeState.Untested && nodes[n].protocol in PROBE_TIERS[t]
    ensures UnjudgedBelow(nodes, t + 1) == UnjudgedBelow(nodes, t) + tier && UnjudgedBelow(nodes, t) !! tier
    ensures |UnjudgedBelow(nodes, t + 1)| == |UnjudgedBelow(nodes, t)| + |tier|
    ensures forall a :: a in tier ==> a in nodes && TierOf(nodes[a].protocol) == t
    ensures forall a, b :: a in UnjudgedBelow(nodes, t) && b in tier ==> Ahead(nodes, a, b)
  {
    forall n | n in tier ensures TierOf(nodes[n].protocol) == t {}
    var below, upto := UnjudgedBelow(nodes, t), UnjudgedBelow(nodes, t + 1);
    assert upto == below + tier && below !! tier;
  }

  lemma SameTierAhead(nodes: Nodes, t: nat, tier: set<NodeId>, taken: set<NodeId>)
    requires taken <= tier && OldestTaken(nodes, tier, taken)
    requires forall a :: a in tier ==> a in nodes && TierOf(nodes[a].protocol) == t
    ensures forall a, b :: a in taken && b in tier - taken ==> Ahead(nodes, a, b)
  {
    forall a, b | a in taken && b in tier - taken ensures Ahead(nodes, a, b) {
      assert Older(nodes, a, b);
    }
  }
}
