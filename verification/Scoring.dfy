/** Tiers, speed percentiles and the order in which free nodes are handed out. */
module Scoring {
  import opened Wrappers
  import opened EngineStore
  import opened Wilson
  import opened WilsonSql

  /** A row with its key. */
  datatype Rated = Rated(id: NodeId, row: Node)

  datatype Policy = Policy(
    minProbes: int, minAvail: real, weightAvail: real, weightSpeed: real, maxAgeS: Option<real>
  )

  // ----- Tiers, in Python and in SQL -----

  datatype Tier = A | B | Cold

  /** `availability`; `root` gives square roots. */
  function Availability(n: Node, root: real -> real): real {
    if n.probeTotal <= 0 then 0.0
    else WilsonLower(n.probeOk, n.probeTotal, root(Radicand(n.probeOk, n.probeTotal)))
  }

  predicate IsFresh(n: Node, now: real, maxAgeS: real) {
    n.lastProbeS.Some? && now - n.lastProbeS.value <= maxAgeS
  }

  predicate InHorizon(n: Node, p: Policy, now: real) {
    p.maxAgeS.Some? ==> IsFresh(n, now, p.maxAgeS.value)
  }

  /** `tier`. */
  function TierOf(n: Node, p: Policy, now: real, root: real -> real): Tier {
    if n.probeTotal < p.minProbes then Cold
    else if !InHorizon(n, p, now) then B
    else if Availability(n, root) >= p.minAvail then A else B
  }

  function SqlRow(n: Node): Row {
    map["probe_ok" := Int(n.probeOk), "probe_total" := Int(n.probeTotal)]
  }

  /** The WHERE clause of both counts. */
  predicate CountsProbed(n: Node, p: Policy) {
    n.state == Alive && n.probeTotal >= p.minProbes
  }

  /** The WHERE clause of the Tier A count; a comparison with NULL is not true. */
  predicate CountsA(n: Node, p: Policy, now: real, root: real -> real) {
    var bound := Eval(WilsonExpr(Coalesce(Column("probe_ok"), I(0)), Coalesce(Column("probe_total"), I(0))),
                      SqlRow(n), root);
    CountsProbed(n, p) && !bound.Null? && AsReal(bound) >= p.minAvail && InHorizon(n, p, now)
  }

  /** `tier_a` and `tier_b` of `pool_counts`: the second is a complement, not a query. */
  function PoolTiers(nodes: Nodes, p: Policy, now: real, root: real -> real): (int, int) {
    var a := |set id | id in nodes && CountsA(nodes[id], p, now, root)|;
    (a, |set id | id in nodes && CountsProbed(nodes[id], p)| - a)
  }

  function AliveInTier(nodes: Nodes, t: Tier, p: Policy, now: real, root: real -> real): set<NodeId> {
    set id | id in nodes && nodes[id].state == Alive && TierOf(nodes[id], p, now, root) == t
  }

  /**
    On one alive row the query and the label part only where a node never probed is judged by a
    floor that asks nothing of it: SQL has no bound for it, Python has zero.
   */
  lemma QueryMeetsLabel(n: Node, p: Policy, now: real, root: real -> real)
    requires n.state == Alive && 0 <= n.probeOk <= n.probeTotal
    ensures (CountsA(n, p, now, root) <==> TierOf(n, p, now, root) == A) <==>
            !(n.probeTotal == 0 && p.minProbes <= 0 && p.minAvail <= 0.0 && InHorizon(n, p, now))
  {
    var ok, total := Coalesce(Column("probe_ok"), I(0)), Coalesce(Column("probe_total"), I(0));
    assert Eval(ok, SqlRow(n), root) == Int(n.probeOk) && Eval(total, SqlRow(n), root) == Int(n.probeTotal);
    hide WilsonExpr, WilsonLower, Radicand;
    if n.probeTotal > 0 {
      SqlIsPython(ok, total, SqlRow(n), root, n.probeOk, n.probeTotal);
    } else {
      SqlWithoutProbes(ok, total, SqlRow(n), root, n.probeOk);
    }
  }

  /** With at least one probe asked for, `pool_counts` counts exactly the alive nodes that `tier` labels A and B. */
  lemma PoolCountsAreLabels(nodes: Nodes, p: Policy, now: real, root: real -> real)
    requires p.minProbes >= 1
    requires forall id :: id in nodes ==> 0 <= nodes[id].probeOk <= nodes[id].probeTotal
    ensures AliveInTier(nodes, A, p, now, root) <= nodes.Keys && AliveInTier(nodes, B, p, now, root) <= nodes.Keys
    ensures PoolTiers(nodes, p, now, root) ==
            (|AliveInTier(nodes, A, p, now, root)|, |AliveInTier(nodes, B, p, now, root)|)
  {
    forall id | id in nodes
      ensures CountsA(nodes[id], p, now, root) <==> id in AliveInTier(nodes, A, p, now, root)
      ensures CountsProbed(nodes[id], p) <==>
              id in AliveInTier(nodes, A, p, now, root) + AliveInTier(nodes, B, p, now, root)
    {
      LabelOne(nodes[id], p, now, root);
    }
    assert AliveInTier(nodes, A, p, now, root) !! AliveInTier(nodes, B, p, now, root);
    hide CountsA, CountsProbed, AliveInTier;
    assert (set id | id in nodes && CountsA(nodes[id], p, now, root)) == AliveInTier(nodes, A, p, now, root);
    assert (set id | id in nodes && CountsProbed(nodes[id], p)) ==
           AliveInTier(nodes, A, p, now, root) + AliveInTier(nodes, B, p, now, root);
  }

  lemma LabelOne(n: Node, p: Policy, now: real, root: real -> real)
    requires p.minProbes >= 1 && 0 <= n.probeOk <= n.probeTotal
    ensures CountsA(n, p, now, root) <==> n.state == Alive && TierOf(n, p, now, root) == A
    ensures CountsProbed(n, p) <==> n.state == Alive && TierOf(n, p, now, root) != Cold
  {
    if n.state == Alive {
      QueryMeetsLabel(n, p, now, root);
    }
    hide Availability;
  }

  // ----- Speed percentiles -----

  /** A throughput reading too old to rank; a row without one, or without its time, passes. */
  predicate Ranks(n: Node, now: real, maxAgeS: Option<real>) {
    maxAgeS.None? || n.throughputKbS.None? || n.throughputMeasuredS.None?
    || now - n.throughputMeasuredS.value <= maxAgeS.value
  }

  function Kept(nodes: seq<Rated>, now: real, maxAgeS: Option<real>): seq<Rated> {
    if nodes == [] then []
    else
      var last := nodes[|nodes| - 1];
      Kept(nodes[..|nodes| - 1], now, maxAgeS) + (if Ranks(last.row, now, maxAgeS) then [last] else [])
  }

  /** The readings that compete within a protocol. */
  function Readings(nodes: seq<Rated>, protocol: Protocol): seq<int> {
    if nodes == [] then []
    else
      var last := nodes[|nodes| - 1];
      Readings(nodes[..|nodes| - 1], protocol)
      + (if last.row.protocol == protocol && last.row.throughputKbS.Some? then [last.row.throughputKbS.value] else [])
  }

  /** How many readings are at most `x`. */
  function AtMost(s: seq<int>, x: int): nat {
    if s == [] then 0 else AtMost(s[..|s| - 1], x) + (if s[|s| - 1] <= x then 1 else 0)
  }

  /** The share of the other readings of its protocol that `x` is not below. */
  function PercentileOf(readings: seq<int>, x: int): real {
    if |readings| <= 1 then 1.0 else (AtMost(readings, x) - 1) as real / (|readings| - 1) as real
  }

  ghost predicate Ascending(s: seq<int>) {
    forall i, j :: 0 <= i < j < |s| ==> s[i] <= s[j]
  }

  /** `bisect_right`: where `x` would go after its equals; in a sorted list, how many are at most `x`. */
  method BisectRight(s: seq<int>, x: int) returns (rank: nat)
    requires Ascending(s)
    ensures rank == AtMost(s, x)
  {
    var lo, hi := 0, |s|;
    while lo < hi
      invariant 0 <= lo <= hi <= |s|
      invariant forall i :: 0 <= i < lo ==> s[i] <= x
      invariant forall i :: hi <= i < |s| ==> s[i] > x
    {
      var mid := (lo + hi) / 2;
      if x < s[mid] { hi := mid; } else { lo := mid + 1; }
    }
    rank := lo;
    SplitCount(s, x, lo);
  }

  lemma {:induction false} SplitCount(s: seq<int>, x: int, k: nat)
    requires k <= |s| && (forall i :: 0 <= i < k ==> s[i] <= x) && (forall i :: k <= i < |s| ==> s[i] > x)
    ensures AtMost(s, x) == k
  {
    if s != [] {
      SplitCount(s[..|s| - 1], x, if k == |s| then k - 1 else k);
    }
  }

  function InsertSorted(s: seq<int>, x: int): seq<int> {
    if s == [] || s[|s| - 1] <= x then s + [x] else InsertSorted(s[..|s| - 1], x) + [s[|s| - 1]]
  }

  function Sorted(s: seq<int>): seq<int> {
    if s == [] then [] else InsertSorted(Sorted(s[..|s| - 1]), s[|s| - 1])
  }

  lemma {:induction false} InsertSortedCounts(s: seq<int>, x: int, y: int)
    ensures var t := InsertSorted(s, x);
            |t| == |s| + 1 && AtMost(t, y) == AtMost(s, y) + (if x <= y then 1 else 0)
  {
    var t := InsertSorted(s, x);
    if s == [] || s[|s| - 1] <= x {
      assert t[..|s|] == s;
    } else {
      InsertSortedCounts(s[..|s| - 1], x, y);
      assert t[..|s|] == InsertSorted(s[..|s| - 1], x);
    }
  }

  /** Whatever bounds the list and the new element bounds the longer list. */
  lemma {:induction false} InsertSortedAscends(s: seq<int>, x: int, bound: int)
    requires Ascending(s) && x <= bound && forall i :: 0 <= i < |s| ==> s[i] <= bound
    ensures var t := InsertSorted(s, x); Ascending(t) && forall i :: 0 <= i < |t| ==> t[i] <= bound
  {
    if s != [] && s[|s| - 1] > x {
      InsertSortedAscends(s[..|s| - 1], x, s[|s| - 1]);
    }
  }

  lemma Bounded(s: seq<int>, x: int) returns (bound: int)
    ensures x <= bound && forall i :: 0 <= i < |s| ==> s[i] <= bound
  {
    if s == [] {
      bound := x;
    } else {
      var rest := Bounded(s[..|s| - 1], x);
      bound := if rest < s[|s| - 1] then s[|s| - 1] else rest;
    }
  }

  lemma {:induction false} SortedKeeps(s: seq<int>, y: int)
    ensures Ascending(Sorted(s)) && |Sorted(s)| == |s| && AtMost(Sorted(s), y) == AtMost(s, y)
  {
    if s != [] {
      SortedKeeps(s[..|s| - 1], y);
      InsertSortedCounts(Sorted(s[..|s| - 1]), s[|s| - 1], y);
      var bound := Bounded(Sorted(s[..|s| - 1]), s[|s| - 1]);
      InsertSortedAscends(Sorted(s[..|s| - 1]), s[|s| - 1], bound);
    }
  }

  /** One row per id: what a table gives. */
  ghost predicate Keyed(nodes: seq<Rated>) {
    forall n, m :: n in nodes && m in nodes && n.id == m.id ==> n == m
  }

  function OfProtocol(nodes: seq<Rated>, protocol: Protocol): seq<Rated> {
    if nodes == [] then []
    else
      var last := nodes[|nodes| - 1];
      OfProtocol(nodes[..|nodes| - 1], protocol) + (if last.row.protocol == protocol then [last] else [])
  }

  lemma {:induction false} KeptIn(nodes: seq<Rated>, now: real, maxAgeS: Option<real>)
    ensures forall n :: n in Kept(nodes, now, maxAgeS) <==> n in nodes && Ranks(n.row, now, maxAgeS)
  {
    if nodes != [] {
      KeptIn(nodes[..|nodes| - 1], now, maxAgeS);
      assert nodes == nodes[..|nodes| - 1] + [nodes[|nodes| - 1]];
    }
  }

  lemma ProtocolStep(nodes: seq<Rated>, n: Rated, p: Protocol)
    ensures OfProtocol(nodes + [n], p) == OfProtocol(nodes, p) + (if n.row.protocol == p then [n] else [])
    ensures Readings(nodes + [n], p) ==
            Readings(nodes, p)
            + (if n.row.protocol == p && n.row.throughputKbS.Some? then [n.row.throughputKbS.value] else [])
  {
    assert (nodes + [n])[..|nodes|] == nodes;
  }

  lemma {:induction false} OfProtocolIn(nodes: seq<Rated>, protocol: Protocol)
    ensures forall n :: n in OfProtocol(nodes, protocol) <==> n in nodes && n.row.protocol == protocol
  {
    if nodes != [] {
      OfProtocolIn(nodes[..|nodes| - 1], protocol);
      assert nodes == nodes[..|nodes| - 1] + [nodes[|nodes| - 1]];
    }
  }

  lemma {:induction false} ReadingsOfGroup(nodes: seq<Rated>, protocol: Protocol)
    ensures Readings(OfProtocol(nodes, protocol), protocol) == Readings(nodes, protocol)
  {
    if nodes != [] {
      var init, last := nodes[..|nodes| - 1], nodes[|nodes| - 1];
      ReadingsOfGroup(init, protocol);
      assert nodes == init + [last];
      ProtocolStep(init, last, protocol);
      ProtocolStep(OfProtocol(init, protocol), last, protocol);
      hide OfProtocol, Readings;
      if last.row.protocol != protocol { assert OfProtocol(nodes, protocol) == OfProtocol(init, protocol); }
    }
  }

  /**
    The map the percentile loop fills: an entry for every measured node of a protocol in
    `done`, and no other.
   */
  ghost predicate IsSpeedMap(kept: seq<Rated>, done: set<Protocol>, out: map<NodeId, real>) {
    && (forall n :: n in kept && n.row.throughputKbS.Some? && n.row.protocol in done ==>
          n.id in out && out[n.id] == PercentileOf(Readings(kept, n.row.protocol), n.row.throughputKbS.value))
    && (forall id :: id in out ==>
          exists n :: n in kept && n.row.throughputKbS.Some? && n.row.protocol in done && n.id == id)
  }

  /** The rows that rank, grouped by protocol. */
  method Grouped(nodes: seq<Rated>, now: real, maxAgeS: Option<real>) returns (groups: map<Protocol, seq<Rated>>)
    ensures var kept := Kept(nodes, now, maxAgeS);
            && (forall n :: n in kept ==> n.row.protocol in groups)
            && (forall p :: p in groups ==> groups[p] == OfProtocol(kept, p))
  {
    hide OfProtocol;
    groups := map[];
    for i := 0 to |nodes|
      invariant var kept := Kept(nodes[..i], now, maxAgeS);
        && (forall n :: n in kept ==> n.row.protocol in groups)
        && (forall p :: p in groups ==> groups[p] == OfProtocol(kept, p))
    {
      var n := nodes[i];
      assert nodes[..i + 1][..i] == nodes[..i];
      ghost var kept := Kept(nodes[..i], now, maxAgeS);
      assert kept + [] == kept;
      if Ranks(n.row, now, maxAgeS) {
        GroupStep(kept, n);
        var p := n.row.protocol;
        if p !in groups {
          NoneOfProtocol(kept, p);
          groups := groups[p := []];
        }
        groups := groups[p := groups[p] + [n]];
      }
    }
    assert nodes[..|nodes|] == nodes;
  }

  lemma GroupStep(kept: seq<Rated>, n: Rated)
    ensures forall q ::
              OfProtocol(kept + [n], q) ==
              if q == n.row.protocol then OfProtocol(kept, q) + [n] else OfProtocol(kept, q)
  {
    forall q
      ensures OfProtocol(kept + [n], q) ==
              if q == n.row.protocol then OfProtocol(kept, q) + [n] else OfProtocol(kept, q)
    {
      ProtocolStep(kept, n, q);
    }
  }

  lemma {:induction false} NoneOfProtocol(nodes: seq<Rated>, protocol: Protocol)
    requires forall n :: n in nodes ==> n.row.protocol != protocol
    ensures OfProtocol(nodes, protocol) == []
  {
    if nodes != [] { NoneOfProtocol(nodes[..|nodes| - 1], protocol); }
  }

  /** `speed_percentile_map`. */
  method SpeedPercentileMap(nodes: seq<Rated>, now: real, maxAgeS: Option<real>) returns (out: map<NodeId, real>)
    requires Keyed(nodes)
    ensures IsSpeedMap(Kept(nodes, now, maxAgeS), ProtocolsOf(Kept(nodes, now, maxAgeS)), out)
  {
    hide IsSpeedMap, OfProtocol, Readings, Ranked;
    ghost var kept := Kept(nodes, now, maxAgeS);
    KeptIn(nodes, now, maxAgeS);
    Unranked(kept);
    var groups := Grouped(nodes, now, maxAgeS);
    out := map[];
    var left := groups.Keys;
    assert groups.Keys - left == {};
    while left != {}
      invariant left <= groups.Keys && IsSpeedMap(kept, groups.Keys - left, out)
      decreases |left|
    {
      var p :| p in left;
      OfProtocolIn(kept, p);
      ReadingsOfGroup(kept, p);
      GroupRanked(kept, p, groups.Keys - left, out);
      out := RankGroup(groups[p], p, out);
      assert groups.Keys - (left - {p}) == groups.Keys - left + {p};
      left := left - {p};
    }
    SameMap(kept, groups.Keys - left, out);
  }

  function ProtocolsOf(nodes: seq<Rated>): set<Protocol> { set n | n in nodes :: n.row.protocol }

  lemma Unranked(kept: seq<Rated>)
    ensures IsSpeedMap(kept, {}, map[])
  {
  }

  lemma SameMap(kept: seq<Rated>, done: set<Protocol>, out: map<NodeId, real>)
    requires IsSpeedMap(kept, done, out) && forall n :: n in kept ==> n.row.protocol in done
    ensures IsSpeedMap(kept, ProtocolsOf(kept), out)
  {
  }

  /** `sofar` with an entry for every measured node of the group, in turn. */
  function Ranked(sofar: map<NodeId, real>, group: seq<Rated>, readings: seq<int>): map<NodeId, real> {
    if group == [] then sofar
    else
      var rest, last := Ranked(sofar, group[..|group| - 1], readings), group[|group| - 1];
      if last.row.throughputKbS.None? then rest
      else rest[last.id := PercentileOf(readings, last.row.throughputKbS.value)]
  }

  /** One protocol's group, ranked into the map. */
  method RankGroup(group: seq<Rated>, p: Protocol, sofar: map<NodeId, real>) returns (out: map<NodeId, real>)
    requires forall n :: n in group ==> n.row.protocol == p
    ensures out == Ranked(sofar, group, Readings(group, p))
  {
    hide PercentileOf, Sorted, AtMost, Ascending, OfProtocol;
    out := sofar;
    var measured := Sorted(Readings(group, p));
    SortedKeeps(Readings(group, p), 0);
    if |measured| == 0 {
      NoReadings(group, p);
      NothingRanked(sofar, group, Readings(group, p));
      return;
    }
    ghost var readings := Readings(group, p);
    hide Readings;
    for i := 0 to |group|
      invariant out == Ranked(sofar, group[..i], readings)
    {
      var n := group[i];
      assert group[..i + 1][..i] == group[..i];
      if n.row.throughputKbS.Some? {
        var share := RankOne(measured, readings, n.row.throughputKbS.value);
        out := out[n.id := share];
      }
    }
    assert group[..|group|] == group;
  }

  method RankOne(measured: seq<int>, ghost readings: seq<int>, x: int) returns (share: real)
    requires measured == Sorted(readings) && |measured| >= 1
    ensures share == PercentileOf(readings, x)
  {
    SortedKeeps(readings, x);
    if |measured| == 1 {
      share := 1.0;
    } else {
      var rank: int := BisectRight(measured, x);
      share := (rank - 1) as real / (|measured| - 1) as real;
    }
  }

  lemma {:induction false} NothingRanked(sofar: map<NodeId, real>, group: seq<Rated>, readings: seq<int>)
    requires forall n :: n in group ==> n.row.throughputKbS.None?
    ensures Ranked(sofar, group, readings) == sofar
  {
    if group != [] { NothingRanked(sofar, group[..|group| - 1], readings); }
  }

  lemma {:induction false} RankedMeans(sofar: map<NodeId, real>, group: seq<Rated>, readings: seq<int>)
    requires Keyed(group)
    ensures var out := Ranked(sofar, group, readings);
            && (forall id :: id in sofar && (forall n :: n in group ==> n.id != id) ==>
                  id in out && out[id] == sofar[id])
            && (forall n :: n in group && n.row.throughputKbS.Some? ==>
                  n.id in out && out[n.id] == PercentileOf(readings, n.row.throughputKbS.value))
            && (forall id :: id in out ==>
                  id in sofar || exists n :: n in group && n.row.throughputKbS.Some? && n.id == id)
  {
    hide PercentileOf;
    if group != [] {
      var init, last := group[..|group| - 1], group[|group| - 1];
      assert group == init + [last];
      RankedMeans(sofar, init, readings);
      var rest, out := Ranked(sofar, init, readings), Ranked(sofar, group, readings);
      forall n | n in group && n.row.throughputKbS.Some?
        ensures n.id in out && out[n.id] == PercentileOf(readings, n.row.throughputKbS.value)
      {
        if n.id == last.id { assert n == last; } else { assert n in init; }
      }
      forall id | id in out ensures id in sofar || exists n :: n in group && n.row.throughputKbS.Some? && n.id == id {
        if id == last.id && last.row.throughputKbS.Some? {
          assert last in group;
        } else if id !in sofar {
          var n :| n in init && n.row.throughputKbS.Some? && n.id == id;
          assert n in group;
        }
      }
    }
  }

  lemma GroupRanked(kept: seq<Rated>, p: Protocol, done: set<Protocol>, sofar: map<NodeId, real>)
    requires Keyed(kept) && IsSpeedMap(kept, done, sofar) && p !in done
    ensures IsSpeedMap(kept, done + {p}, Ranked(sofar, OfProtocol(kept, p), Readings(kept, p)))
  {
    hide PercentileOf, Ranked;
    OfProtocolIn(kept, p);
    var group := OfProtocol(kept, p);
    RankedMeans(sofar, group, Readings(kept, p));
    forall n | n in kept && n.row.throughputKbS.Some? && n.row.protocol in done
      ensures forall m :: m in group ==> m.id != n.id
    {
    }
  }

  lemma {:induction false} NoReadings(nodes: seq<Rated>, p: Protocol)
    requires Readings(nodes, p) == []
    ensures forall n :: n in nodes && n.row.protocol == p ==> n.row.throughputKbS.None?
  {
    if nodes != [] {
      NoReadings(nodes[..|nodes| - 1], p);
      assert nodes == nodes[..|nodes| - 1] + [nodes[|nodes| - 1]];
    }
  }

  // ----- What the percentiles promise -----

  lemma {:induction false} AtMostGrows(s: seq<int>, x: int, y: int)
    requires x <= y
    ensures AtMost(s, x) <= AtMost(s, y) <= |s|
  {
    if s != [] { AtMostGrows(s[..|s| - 1], x, y); }
  }

  lemma {:induction false} AtMostOwn(s: seq<int>, x: int)
    requires x in s
    ensures AtMost(s, x) >= 1
    ensures AtMost(s, x) == |s| <==> forall v :: v in s ==> v <= x
    ensures AtMost(s, x) == 1 <==> forall i, j :: 0 <= i < j < |s| ==> s[i] > x || s[j] > x
  {
    CountNone(s, x);
    CountAll(s, x);
    CountOne(s, x);
    assert forall j :: 0 <= j < |s| ==> s[j] in s;
    var i :| 0 <= i < |s| && s[i] == x;
    assert AtMost(s, x) != 0;
  }

  lemma {:induction false} CountNone(s: seq<int>, x: int)
    ensures AtMost(s, x) == 0 <==> forall i :: 0 <= i < |s| ==> s[i] > x
  {
    if s != [] {
      var init := s[..|s| - 1];
      CountNone(init, x);
      assert forall i :: 0 <= i < |init| ==> init[i] == s[i];
    }
  }

  lemma {:induction false} CountAll(s: seq<int>, x: int)
    ensures AtMost(s, x) <= |s|
    ensures AtMost(s, x) == |s| <==> forall i :: 0 <= i < |s| ==> s[i] <= x
  {
    if s != [] {
      var init := s[..|s| - 1];
      CountAll(init, x);
      assert forall i :: 0 <= i < |init| ==> init[i] == s[i];
    }
  }

  lemma {:induction false} CountOne(s: seq<int>, x: int)
    ensures AtMost(s, x) <= 1 <==> forall i, j :: 0 <= i < j < |s| ==> s[i] > x || s[j] > x
  {
    if s != [] {
      var init, last := s[..|s| - 1], s[|s| - 1];
      CountOne(init, x);
      CountNone(init, x);
      hide AtMost;
      assert forall i :: 0 <= i < |init| ==> init[i] == s[i];
      if last <= x && !(forall i :: 0 <= i < |init| ==> init[i] > x) {
        var i :| 0 <= i < |init| && init[i] <= x;
        assert !(s[i] > x || s[|init|] > x);
      }
    }
  }

  lemma Ratio(a: int, b: int, n: int)
    requires 0 <= a <= b <= n && n > 0
    ensures 0.0 <= a as real / n as real <= b as real / n as real <= 1.0
    ensures a as real / n as real == 1.0 <==> a == n
    ensures a as real / n as real == 0.0 <==> a == 0
  {
    var x, y, m := a as real / n as real, b as real / n as real, n as real;
    DivMul(a as real, m);
    DivMul(b as real, m);
    Cancel(x, y, m);
    Cancel(0.0, x, m);
    Cancel(y, 1.0, m);
  }

  /**
    Percentiles lie between zero and one and rise with throughput; the fastest reading has one
    even when others tie with it.
   */
  lemma Percentiles(readings: seq<int>, x: int, y: int)
    requires x in readings && y in readings && x <= y
    ensures 0.0 <= PercentileOf(readings, x) <= PercentileOf(readings, y) <= 1.0
    ensures PercentileOf(readings, y) == 1.0 <==> forall v :: v in readings ==> v <= y
  {
    AtMostGrows(readings, x, y);
    AtMostOwn(readings, x);
    AtMostOwn(readings, y);
    if |readings| > 1 {
      Ratio(AtMost(readings, x) - 1, AtMost(readings, y) - 1, |readings| - 1);
      Ratio(AtMost(readings, y) - 1, AtMost(readings, y) - 1, |readings| - 1);
    } else {
      assert forall v :: v in readings ==> v == readings[0];
    }
  }

  /**
    The documented "slowest member ranks 0.0" holds if and only if it is alone at its speed and
    not alone in its protocol: ties for the slowest all rank above zero.
   */
  lemma SlowestIsZeroIff(readings: seq<int>, x: int)
    requires x in readings && forall v :: v in readings ==> x <= v
    ensures PercentileOf(readings, x) == 0.0 <==>
            |readings| > 1 && forall i, j :: 0 <= i < j < |readings| ==> !(readings[i] == x && readings[j] == x)
  {
    AtMostOwn(readings, x);
    AtMostGrows(readings, x, x);
    assert forall i :: 0 <= i < |readings| ==> readings[i] in readings;
    if |readings| > 1 {
      Ratio(AtMost(readings, x) - 1, AtMost(readings, x) - 1, |readings| - 1);
    }
  }

  lemma TiedSlowest()
    ensures PercentileOf([5, 5, 9], 5) == 0.5
  {
    assert [5, 5, 9][..2] == [5, 5] && [5, 5][..1] == [5] && [5][..0] == [];
    assert AtMost([5], 5) == 1 && AtMost([5, 5], 5) == 2 && AtMost([5, 5, 9], 5) == 2;
  }

  lemma {:induction false} ReadingsIn(nodes: seq<Rated>, p: Protocol)
    ensures forall n :: n in nodes && n.row.protocol == p && n.row.throughputKbS.Some? ==>
              n.row.throughputKbS.value in Readings(nodes, p)
    ensures forall x :: x in Readings(nodes, p) ==>
              exists n :: n in nodes && n.row.protocol == p && n.row.throughputKbS == Some(x)
  {
    if nodes != [] {
      var init, last := nodes[..|nodes| - 1], nodes[|nodes| - 1];
      ReadingsIn(init, p);
      assert nodes == init + [last];
      forall x | x in Readings(nodes, p)
        ensures exists n :: n in nodes && n.row.protocol == p && n.row.throughputKbS == Some(x)
      {
        if x in Readings(init, p) {
          var n :| n in init && n.row.protocol == p && n.row.throughputKbS == Some(x);
          assert n in nodes;
        } else {
          assert last in nodes && last.row.throughputKbS == Some(x);
        }
      }
    }
  }

  /** A ranked node of protocol `p` with a reading. */
  predicate Measured(kept: seq<Rated>, n: Rated, p: Protocol) {
    n in kept && n.row.protocol == p && n.row.throughputKbS.Some?
  }

  /** What the map promises its readers, node by node. */
  lemma SpeedMapPromises(kept: seq<Rated>, out: map<NodeId, real>, n: Rated, m: Rated, p: Protocol)
    requires IsSpeedMap(kept, ProtocolsOf(kept), out) && Measured(kept, n, p) && Measured(kept, m, p)
    requires n.row.throughputKbS.value <= m.row.throughputKbS.value
    ensures n.id in out && m.id in out && 0.0 <= out[n.id] <= out[m.id] <= 1.0
    ensures out[m.id] == 1.0 <==>
            forall o :: Measured(kept, o, p) ==> o.row.throughputKbS.value <= m.row.throughputKbS.value
  {
    ReadingsIn(kept, p);
    assert p in ProtocolsOf(kept);
    Percentiles(Readings(kept, p), n.row.throughputKbS.value, m.row.throughputKbS.value);
    hide PercentileOf;
    forall v | v in Readings(kept, p)
      ensures (forall o :: Measured(kept, o, p) ==> o.row.throughputKbS.value <= m.row.throughputKbS.value) ==>
                v <= m.row.throughputKbS.value
    {
      var o :| o in kept && o.row.protocol == p && o.row.throughputKbS == Some(v);
      assert Measured(kept, o, p);
    }
  }

  // ----- Ordering candidates -----

  /** A sort key: compared left to right, `false` before `true`. */
  datatype Key = Key(rank: int, cost: real, unmeasured: bool)

  predicate Leq(a: Key, b: Key) {
    a.rank < b.rank
    || (a.rank == b.rank && (a.cost < b.cost || (a.cost == b.cost && (a.unmeasured ==> b.unmeasured))))
  }

  /** `composite_score`: a cold node has no availability term. */
  function CompositeScore(n: Rated, percentiles: map<NodeId, real>, p: Policy, root: real -> real): real {
    var speed := p.weightSpeed * (if n.id in percentiles then percentiles[n.id] else 0.0);
    if n.row.probeTotal < p.minProbes then speed
    else p.weightAvail * Availability(n.row, root) + speed
  }

  function TierRank(t: Tier): int {
    match t case A => 0 case B => 1 case Cold => 2
  }

  /** The clock reads of one ordering: one for the readings' age, then one per candidate for its tier. */
  datatype Clock = Clock(ranked: real, judged: NodeId -> real)

  /** A candidate's tier at its clock read, as the key's first component. */
  function RankOf(n: Rated, p: Policy, clock: NodeId -> real, root: real -> real): int {
    TierRank(TierOf(n.row, p, clock(n.id), root))
  }

  /** The key of `score_nodes`. */
  function ScoreKey(n: Rated, percentiles: map<NodeId, real>, p: Policy, clock: NodeId -> real, root: real -> real)
    : Key
  {
    Key(RankOf(n, p, clock, root), -CompositeScore(n, percentiles, p, root), n.row.latencyMs.None?)
  }

  function ScoreKeys(percentiles: map<NodeId, real>, p: Policy, clock: NodeId -> real, root: real -> real)
    : Rated -> Key
  {
    (n: Rated) => ScoreKey(n, percentiles, p, clock, root)
  }

  /** The key of `_prefer_best`, for a pool without stability scores. */
  function SpeedKey(n: Rated): Key {
    Key(if n.row.throughputKbS.None? then 1 else 0,
        if n.row.throughputKbS.None? then 0.0 else -(n.row.throughputKbS.value as real),
        n.row.latencyMs.None?)
  }

  function Insert(s: seq<Rated>, x: Rated, key: Rated -> Key): seq<Rated> {
    if s == [] || Leq(key(s[|s| - 1]), key(x)) then s + [x]
    else Insert(s[..|s| - 1], x, key) + [s[|s| - 1]]
  }

  /** Python's stable `sorted` with a key. */
  function SortBy(s: seq<Rated>, key: Rated -> Key): seq<Rated> {
    if s == [] then [] else Insert(SortBy(s[..|s| - 1], key), s[|s| - 1], key)
  }

  ghost predicate InOrder(s: seq<Rated>, key: Rated -> Key) {
    forall i, j :: 0 <= i < j < |s| ==> Leq(key(s[i]), key(s[j]))
  }

  /** The candidates whose key is `k`, in the order given. */
  function Ties(s: seq<Rated>, key: Rated -> Key, k: Key): seq<Rated> {
    if s == [] then [] else Ties(s[..|s| - 1], key, k) + (if key(s[|s| - 1]) == k then [s[|s| - 1]] else [])
  }

  lemma TiesStep(s: seq<Rated>, x: Rated, key: Rated -> Key, k: Key)
    ensures Ties(s + [x], key, k) == Ties(s, key, k) + (if key(x) == k then [x] else [])
  {
    assert (s + [x])[..|s|] == s;
  }

  lemma {:induction false} InsertMultiset(s: seq<Rated>, x: Rated, key: Rated -> Key)
    ensures multiset(Insert(s, x, key)) == multiset(s) + multiset{x}
  {
    if s != [] && !Leq(key(s[|s| - 1]), key(x)) {
      assert s == s[..|s| - 1] + [s[|s| - 1]];
      InsertMultiset(s[..|s| - 1], x, key);
    }
  }

  lemma {:induction false} InsertTies(s: seq<Rated>, x: Rated, key: Rated -> Key, k: Key)
    ensures Ties(Insert(s, x, key), key, k) == Ties(s + [x], key, k)
  {
    hide Leq, Ties;
    if s != [] && !Leq(key(s[|s| - 1]), key(x)) {
      var init, last := s[..|s| - 1], s[|s| - 1];
      assert s == init + [last];
      LeqTotal(key(last), key(last));
      assert key(last) != key(x);
      InsertTies(init, x, key, k);
      TiesStep(init, x, key, k);
      TiesStep(init, last, key, k);
      TiesStep(Insert(init, x, key), last, key, k);
      TiesStep(s, x, key, k);
    }
  }

  /** Whatever key bounds the list and the new candidate bounds the longer list. */
  lemma {:induction false} InsertOrders(s: seq<Rated>, x: Rated, key: Rated -> Key, bound: Key)
    requires InOrder(s, key) && Leq(key(x), bound) && forall i :: 0 <= i < |s| ==> Leq(key(s[i]), bound)
    ensures var t := Insert(s, x, key); InOrder(t, key) && forall i :: 0 <= i < |t| ==> Leq(key(t[i]), bound)
  {
    hide Leq;
    if s != [] && !Leq(key(s[|s| - 1]), key(x)) {
      LeqTotal(key(s[|s| - 1]), key(x));
      LeqTotal(key(s[|s| - 1]), key(s[|s| - 1]));
      var init, last := s[..|s| - 1], s[|s| - 1];
      assert forall i :: 0 <= i < |init| ==> init[i] == s[i];
      InsertOrders(init, x, key, key(last));
      var t := Insert(init, x, key);
      assert Insert(s, x, key) == t + [last];
      forall i | 0 <= i < |t| ensures Leq(key(t[i]), bound) { LeqTrans(key(t[i]), key(last), bound); }
    } else if s != [] {
      forall i | 0 <= i < |s| ensures Leq(key(s[i]), key(x)) {
        if i < |s| - 1 { LeqTrans(key(s[i]), key(s[|s| - 1]), key(x)); }
      }
    }
  }

  lemma LeqTotal(a: Key, b: Key)
    ensures Leq(a, b) || Leq(b, a)
  {
  }

  lemma LeqTrans(a: Key, b: Key, c: Key)
    requires Leq(a, b) && Leq(b, c)
    ensures Leq(a, c)
  {
  }

  lemma BoundedKeys(s: seq<Rated>, x: Rated, key: Rated -> Key) returns (bound: Key)
    ensures Leq(key(x), bound) && forall i :: 0 <= i < |s| ==> Leq(key(s[i]), bound)
  {
    if s == [] {
      bound := key(x);
    } else {
      var rest := BoundedKeys(s[..|s| - 1], x, key);
      bound := if Leq(rest, key(s[|s| - 1])) then key(s[|s| - 1]) else rest;
      LeqTotal(rest, key(s[|s| - 1]));
    }
  }

  /**
    Sorting: the same candidates, in order, and those with equal keys as they came.
   */
  lemma {:induction false} SortedStably(s: seq<Rated>, key: Rated -> Key, k: Key)
    ensures var t := SortBy(s, key);
            InOrder(t, key) && multiset(t) == multiset(s) && Ties(t, key, k) == Ties(s, key, k)
  {
    if s != [] {
      var init, last := s[..|s| - 1], s[|s| - 1];
      assert s == init + [last];
      SortedStably(init, key, k);
      InsertMultiset(SortBy(init, key), last, key);
      InsertTies(SortBy(init, key), last, key, k);
      var bound := BoundedKeys(SortBy(init, key), last, key);
      InsertOrders(SortBy(init, key), last, key, bound);
      TiesStep(SortBy(init, key), last, key, k);
      TiesStep(init, last, key, k);
    }
  }

  /** The order `load_nodes` reads rows of one state in: by latency, NULL first. */
  predicate LoadedBefore(a: Rated, b: Rated) {
    a.row.latencyMs.None? || (b.row.latencyMs.Some? && a.row.latencyMs.value <= b.row.latencyMs.value)
  }

  ghost predicate ByLatency(s: seq<Rated>) {
    forall i, j :: 0 <= i < j < |s| ==> LoadedBefore(s[i], s[j])
  }

  ghost predicate TiesByLatency(s: seq<Rated>, key: Rated -> Key) {
    forall i, j :: 0 <= i < j < |s| && key(s[i]) == key(s[j]) ==> LoadedBefore(s[i], s[j])
  }

  lemma {:induction false} TiesFrom(s: seq<Rated>, key: Rated -> Key, k: Key)
    ensures forall x :: x in Ties(s, key, k) <==> x in s && key(x) == k
  {
    if s != [] {
      var init := s[..|s| - 1];
      assert s == init + [s[|s| - 1]];
      TiesFrom(init, key, k);
    }
  }

  lemma {:induction false} TiesLoaded(s: seq<Rated>, key: Rated -> Key, k: Key)
    requires ByLatency(s)
    ensures ByLatency(Ties(s, key, k))
  {
    hide LoadedBefore;
    if s != [] {
      var init, last := s[..|s| - 1], s[|s| - 1];
      assert s == init + [last];
      TiesLoaded(init, key, k);
      TiesFrom(init, key, k);
      forall x | x in Ties(init, key, k) ensures LoadedBefore(x, last) {
        var i :| 0 <= i < |init| && init[i] == x;
        assert s[i] == x;
      }
    }
  }

  lemma {:induction false} TiesPlaced(s: seq<Rated>, key: Rated -> Key, k: Key, i: nat, j: nat)
    requires ByLatency(Ties(s, key, k)) && i < j < |s| && key(s[i]) == k == key(s[j])
    ensures LoadedBefore(s[i], s[j])
  {
    hide LoadedBefore;
    var init, last := s[..|s| - 1], s[|s| - 1];
    var rest := Ties(init, key, k);
    if j < |s| - 1 {
      assert forall a :: 0 <= a < |rest| ==> Ties(s, key, k)[a] == rest[a];
      TiesPlaced(init, key, k, i, j);
    } else {
      TiesFrom(init, key, k);
      assert init[i] in rest;
      var a :| 0 <= a < |rest| && rest[a] == s[i];
      assert Ties(s, key, k)[a] == s[i] && Ties(s, key, k)[|rest|] == last;
    }
  }

  /** Candidates that tie stay in the order they were loaded in. */
  lemma SortKeepsLoadOrder(s: seq<Rated>, key: Rated -> Key)
    requires ByLatency(s)
    ensures TiesByLatency(SortBy(s, key), key)
  {
    var t := SortBy(s, key);
    forall i, j | 0 <= i < j < |t| && key(t[i]) == key(t[j]) ensures LoadedBefore(t[i], t[j]) {
      SortedStably(s, key, key(t[i]));
      TiesLoaded(s, key, key(t[i]));
      TiesPlaced(t, key, key(t[i]), i, j);
    }
  }

  /** `score_nodes`, given the percentiles of the candidates. */
  function ScoreNodes(nodes: seq<Rated>, percentiles: map<NodeId, real>, p: Policy, clock: NodeId -> real,
                      root: real -> real)
    : seq<Rated>
  {
    SortBy(nodes, ScoreKeys(percentiles, p, clock, root))
  }

  /** Tier A before Tier B before cold, and within a tier the better composite first. */
  predicate Beats(n: Rated, m: Rated, percentiles: map<NodeId, real>, p: Policy, clock: NodeId -> real,
                  root: real -> real) {
    var a, b := RankOf(n, p, clock, root), RankOf(m, p, clock, root);
    a < b || (a == b && CompositeScore(n, percentiles, p, root) > CompositeScore(m, percentiles, p, root))
  }

  /**
    The order is a greedy optimum: however many are granted from the front, nobody left out
    beats anybody granted, and everybody is either granted or left out.
   */
  lemma GreedyOptimum(nodes: seq<Rated>, percentiles: map<NodeId, real>, p: Policy, clock: NodeId -> real,
                      root: real -> real, k: nat)
    requires k <= |nodes|
    ensures var order := ScoreNodes(nodes, percentiles, p, clock, root);
            && |order| == |nodes| && multiset(order[..k]) + multiset(order[k..]) == multiset(nodes)
            && (forall n, m :: n in order[..k] && m in order[k..] ==> !Beats(m, n, percentiles, p, clock, root))
            && (forall i, j :: 0 <= i < j < |order| ==>
                  RankOf(order[i], p, clock, root) <= RankOf(order[j], p, clock, root))
  {
    hide CompositeScore, TierOf, SortBy, Ties, Beats, ScoreKey, Leq;
    var key := ScoreKeys(percentiles, p, clock, root);
    var order := ScoreNodes(nodes, percentiles, p, clock, root);
    assert order == SortBy(nodes, key);
    SortedStably(nodes, key, Key(0, 0.0, false));
    SplitOrder(order, nodes, k);
    forall i, j | 0 <= i < j < |order|
      ensures RankOf(order[i], p, clock, root) <= RankOf(order[j], p, clock, root)
      ensures !Beats(order[j], order[i], percentiles, p, clock, root)
    {
      assert Leq(key(order[i]), key(order[j]));
      KeyMeans(order[i], order[j], percentiles, p, clock, root);
    }
    forall n, m | n in order[..k] && m in order[k..] ensures !Beats(m, n, percentiles, p, clock, root) {
      var i :| 0 <= i < k && order[i] == n;
      var j :| k <= j < |order| && order[j] == m;
    }
  }

  /** A measured node before an unmeasured one, and of two measured ones the faster. */
  predicate Faster(n: Rated, m: Rated) {
    n.row.throughputKbS.Some?
    && (m.row.throughputKbS.None? || n.row.throughputKbS.value > m.row.throughputKbS.value)
  }

  lemma SpeedKeyMeans(n: Rated, m: Rated)
    requires Leq(SpeedKey(n), SpeedKey(m))
    ensures !Faster(m, n)
  {
  }

  lemma SplitOrder(order: seq<Rated>, nodes: seq<Rated>, k: nat)
    requires multiset(order) == multiset(nodes) && k <= |nodes|
    ensures |order| == |nodes| && multiset(order[..k]) + multiset(order[k..]) == multiset(nodes)
  {
    assert |multiset(order)| == |order| && |multiset(nodes)| == |nodes|;
    assert order == order[..k] + order[k..];
  }

  lemma KeyMeans(n: Rated, m: Rated, percentiles: map<NodeId, real>, p: Policy, clock: NodeId -> real,
                 root: real -> real)
    requires Leq(ScoreKey(n, percentiles, p, clock, root), ScoreKey(m, percentiles, p, clock, root))
    ensures RankOf(n, p, clock, root) <= RankOf(m, p, clock, root)
    ensures !Beats(m, n, percentiles, p, clock, root)
  {
    hide CompositeScore, TierOf;
  }
}
