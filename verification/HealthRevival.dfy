/**
  A create that finishes after its row was deleted: exactly when that is harmless, and how
  two tunnels come to share a node when it is not.
 */
module HealthRevival {
  import opened Collections
  import opened Wrappers
  import opened EngineStore
  import opened HealthProtocol
  import opened HealthSafety
  import opened HealthTheorems
  import opened HealthStray

  /** Tunnel `t` runs with no node and an empty config, short of what it asked for. */
  ghost predicate Empty(maxMisses: int, s: System, t: TunnelId) {
    && IdsOk(s) && Exact(s.e) && StrikesOk(maxMisses, s.e, s.trail) && Serving(s.e, t)
    && s.e.tunnels[t].requested >= 1 && AssignedTo(s.e.nodes, t) == {}
    && t in s.e.rendered && s.e.rendered[t] == {}
  }

  /** And a pass of it is in flight with the busy flag clear. */
  ghost predicate Loose(maxMisses: int, s: System, t: TunnelId, p: PassId) {
    Empty(maxMisses, s, t) && t !in s.e.busy && p in s.passes && s.passes[p].t == t
  }

  lemma RevivedEmpty(maxMisses: int, s: System, t: TunnelId)
    requires Inv(maxMisses, s) && t in s.creating && t !in s.e.tunnels && s.creating[t].nodes == []
    ensures Empty(maxMisses, Step(maxMisses, s, CreateFinish(t)).value, t)
  {
    hide PassesOk, DeploysOk, BuildingOk;
    RevivedRows(maxMisses, s, t);
    hide Exact, StrikesOk, AssignedTo;
  }

  /** The busy flag cleared, by the end of a pass if it was set. */
  lemma Loosened(maxMisses: int, m: System, t: TunnelId) returns (d: System, p: PassId)
    requires Empty(maxMisses, m, t) && !LonePass(m, t)
    ensures GuardedLeads(maxMisses, m, d) && Loose(maxMisses, d, t, p)
  {
    hide GuardedLeads, Empty;
    var q: PassId;
    p, q :| p in m.passes && q in m.passes && m.passes[p].t == t == m.passes[q].t && !(p == q && t in m.e.busy);
    LeadsHere(maxMisses, m);
    d := m;
    if t in m.e.busy {
      PassEnds(maxMisses, m, m, t, q);
      d := m.(e := m.e.(busy := m.e.busy - {t}), passes := m.passes - {q});
      EmptyEnded(maxMisses, m, t, q);
    }
  }

  lemma EmptyEnded(maxMisses: int, m: System, t: TunnelId, q: PassId)
    requires Empty(maxMisses, m, t)
    ensures Empty(maxMisses, m.(e := m.e.(busy := m.e.busy - {t}), passes := m.passes - {q}), t)
  {
    hide Exact, StrikesOk, AssignedTo;
    FlagsIrrelevant(maxMisses, m.e, m.e.(busy := m.e.busy - {t}), m.trail);
  }

  lemma FreshPass(passes: set<PassId>) returns (q: PassId)
    ensures q !in passes && forall p :: p in passes ==> p < q
  {
    if passes == {} {
      q := 0;
    } else {
      var p :| p in passes;
      var rest := FreshPass(passes - {p});
      q := if rest <= p then p + 1 else rest;
      forall x | x in passes ensures x < q { assert x == p || x in passes - {p}; }
    }
  }

  /** All rows dead and one more, alive and free. */
  function Added(nodes: Nodes, n: NodeId): Nodes {
    Recoloured(nodes, {})[n := Node("", Ss, "", 0.0, Alive, None, None, None, None, 0, 0, None, None, None, None)]
  }

  lemma AddedMeans(nodes: Nodes, n: NodeId, t: TunnelId)
    requires n !in nodes
    ensures var after := Added(nodes, n);
            && SameAssignments(nodes, after) && Free(after) == {n} && AssignedTo(after, t) == AssignedTo(nodes, t)
            && n in after && after[n].state == Alive && Assignable(after[n].protocol)
  {
  }

  /** Everybody else deleted, and one fresh node free. */
  lemma Supplied(maxMisses: int, s0: System, s: System, t: TunnelId, p: PassId) returns (d: System, n: NodeId)
    requires GuardedLeads(maxMisses, s0, s) && Loose(maxMisses, s, t, p)
    ensures GuardedLeads(maxMisses, s0, d) && Loose(maxMisses, d, t, p) && d.e.tunnels.Keys == {t}
    ensures n in d.e.nodes && Free(d.e.nodes) == {n}
    ensures d.e.nodes[n].state == Alive && Assignable(d.e.nodes[n].protocol)
  {
    hide GuardedLeads, Exact, StrikesOk, AssignedTo, Free, Added;
    var q := FreshPass(s.passes.Keys);
    var alone := DeleteOthers(maxMisses, s0, s, t, q);
    n := FreshId(alone.e.nodes.Keys);
    var after := Added(alone.e.nodes, n);
    AddedMeans(alone.e.nodes, n, t);
    RecolouredKeeps(maxMisses, alone.e, after, alone.trail);
    Onward(maxMisses, s0, alone, NodesChange(after));
    d := alone.(e := alone.e.(nodes := after));
    assert d.passes == s.passes;
  }

  /** A second pass hands the node out. */
  lemma SecondCommits(maxMisses: int, s0: System, s: System, t: TunnelId, p: PassId, n: NodeId)
    returns (d: System, q: PassId)
    requires GuardedLeads(maxMisses, s0, s) && Loose(maxMisses, s, t, p) && s.e.tunnels.Keys == {t}
    requires n in s.e.nodes && Free(s.e.nodes) == {n}
    requires s.e.nodes[n].state == Alive && Assignable(s.e.nodes[n].protocol)
    ensures GuardedLeads(maxMisses, s0, d) && IdsOk(d) && Exact(d.e) && StrikesOk(maxMisses, d.e, d.trail)
    ensures Serving(d.e, t) && d.e.tunnels.Keys == {t} && AssignedTo(d.e.nodes, t) == {n} == Servable(d.e.nodes, t)
    ensures t in d.e.pending && t in d.e.rendered && d.e.rendered[t] == {}
    ensures q !in s.passes && d.passes == s.passes[q := Deploying(t, false)]
  {
    hide GuardedLeads, Judged, Committed, Exact, StrikesOk, IsRanking, Fresh, Extended, AssignedTo, Free, Assign,
         Servable;
    q := FreshPass(s.passes.Keys);
    Commits(maxMisses, s, t, n);
    PassCommits(maxMisses, s0, s, t, q, [], map[], [n]);
    d := CommittedIn(maxMisses, s, t, q, [], map[], [n]);
  }

  /** And has a config naming it on its way. */
  lemma SecondRolls(maxMisses: int, s0: System, s: System, t: TunnelId, p: PassId, n: NodeId)
    returns (d: System, q: PassId)
    requires GuardedLeads(maxMisses, s0, s) && Loose(maxMisses, s, t, p) && s.e.tunnels.Keys == {t}
    requires n in s.e.nodes && Free(s.e.nodes) == {n}
    requires s.e.nodes[n].state == Alive && Assignable(s.e.nodes[n].protocol)
    ensures GuardedLeads(maxMisses, s0, d) && IdsOk(d) && Exact(d.e) && StrikesOk(maxMisses, d.e, d.trail)
    ensures Serving(d.e, t) && d.e.tunnels.Keys == {t} && n in AssignedTo(d.e.nodes, t)
    ensures p in d.passes && d.passes[p].t == t && q != p && q in d.passes && d.passes[q] == Rolling(t, {n}, false)
  {
    hide GuardedLeads, Exact, StrikesOk, AssignedTo, Free, Servable;
    var m;
    m, q := SecondCommits(maxMisses, s0, s, t, p, n);
    d := Move(m, q, Rolling(t, {n}, false));
    assert {n} != {};
    assert Step(maxMisses, m, DeployRead(q)) == Some(d);
    Onward(maxMisses, s0, m, DeployRead(q));
  }

  /** What its locked section leaves. */
  lemma Commits(maxMisses: int, s: System, t: TunnelId, n: NodeId)
    requires Exact(s.e) && StrikesOk(maxMisses, s.e, s.trail) && Serving(s.e, t) && s.e.tunnels[t].requested >= 1
    requires AssignedTo(s.e.nodes, t) == {} && n in s.e.nodes && Free(s.e.nodes) == {n}
    requires s.e.nodes[n].state == Alive && Assignable(s.e.nodes[n].protocol)
    ensures var e := Busied(s.e, t);
            var j := Judged(e, t, [], map[], maxMisses);
            var f := Committed(e, t, [], map[], maxMisses, [n]);
            && Distinct<NodeId>([]) && Elements<NodeId>([]) == {} && IsRanking(j.nodes, [n])
            && Exact(f) && StrikesOk(maxMisses, f, Fresh(Extended(s.trail, j.nodes, t, [], map[]), f.nodes))
            && AssignedTo(f.nodes, t) == {n} == Servable(f.nodes, t)
            && f.rendered == e.rendered && f.pending == e.pending + {t} && f.busy == e.busy
            && Serving(f, t) && f.tunnels.Keys == e.tunnels.Keys
  {
    hide Judged, Committed, Exact, StrikesOk, IsRanking, Fresh, Extended, AssignedTo, Free, Assign, Servable;
    var e := Busied(s.e, t);
    FlagsIrrelevant(maxMisses, s.e, e, s.trail);
    assert Elements([n]) == {n};
    Refill(maxMisses, e, t, [], map[], [n], {n});
    CommittedKeeps(e, t, [], map[], maxMisses, [n], s.trail);
    AssignedMeans(e.nodes, {n}, t, {n});
  }

  /**
    A revived row that meets two passes, or one the busy flag does not know of: the second
    pass's config overtakes the death of its node, which goes to another tunnel.
   */
  lemma LooseShares(maxMisses: int, s0: System, s: System, t: TunnelId, p: PassId) returns (d: System)
    requires GuardedLeads(maxMisses, s0, s) && Loose(maxMisses, s, t, p)
    ensures GuardedLeads(maxMisses, s0, d) && Shares(d, t)
  {
    hide GuardedLeads, Exact, StrikesOk, AssignedTo, Free;
    var supplied, n := Supplied(maxMisses, s0, s, t, p);
    var rolling, q := SecondRolls(maxMisses, s0, supplied, t, p, n);
    PassEnds(maxMisses, s0, rolling, t, p);
    var ended := rolling.(e := rolling.e.(busy := rolling.e.busy - {t}), passes := rolling.passes - {p});
    FlagsIrrelevant(maxMisses, rolling.e, ended.e, rolling.trail);
    var gone := Rid(maxMisses, s0, ended, t, p, {}, n);
    OnlyOwner(gone.e, t);
    assert gone.passes == ended.passes;
    Stored(rolling.e.nodes, t, n);
    RolledAfter(maxMisses, s0, gone, t, q, n);
    d := GivenAway(maxMisses, s0, Step(maxMisses, gone, RollOut(q, Rolled)).value, t, n);
  }

  lemma Stored(nodes: Nodes, t: TunnelId, n: NodeId)
    requires n in AssignedTo(nodes, t)
    ensures n in nodes
  {
  }

  lemma RolledAfter(maxMisses: int, s0: System, s: System, t: TunnelId, q: PassId, n: NodeId)
    requires GuardedLeads(maxMisses, s0, s) && IdsOk(s) && t in s.e.tunnels
    requires q in s.passes && s.passes[q] == Rolling(t, {n}, false)
    ensures Step(maxMisses, s, RollOut(q, Rolled)).Some?
    ensures var d := Step(maxMisses, s, RollOut(q, Rolled)).value;
            && GuardedLeads(maxMisses, s0, d) && IdsOk(d) && d.e.nodes == s.e.nodes && d.e.tunnels == s.e.tunnels
            && t !in d.e.pending && t in d.containers && d.containers[t] == {n}
  {
    hide GuardedLeads;
    Onward(maxMisses, s0, s, RollOut(q, Rolled));
  }

  // ----- With one strike allowed the counts break too -----

  /** A pass about to probe the tunnel's one node. */
  lemma Snaps(maxMisses: int, s0: System, s: System, t: TunnelId, q: PassId, n: NodeId) returns (d: System)
    requires GuardedLeads(maxMisses, s0, s) && t in s.issued && t !in s.e.busy && q !in s.passes
    requires AssignedTo(s.e.nodes, t) == {n}
    ensures GuardedLeads(maxMisses, s0, d)
    ensures d == s.(e := s.e.(busy := s.e.busy + {t}), passes := s.passes[q := Probing(t, [n])])
  {
    hide GuardedLeads, AssignedTo;
    assert Elements([n]) == {n};
    var begun := s.(e := Busied(s.e, t), passes := s.passes[q := Begun(t, false)]);
    assert Step(maxMisses, s, PassBegin(q, t, false)) == Some(begun);
    Onward(maxMisses, s0, s, PassBegin(q, t, false));
    d := begun.(passes := s.passes[q := Probing(t, [n])]);
    assert begun.passes[q := Probing(t, [n])] == d.passes;
    assert Step(maxMisses, begun, Snapshot(q, [n])) == Some(d);
    Onward(maxMisses, s0, begun, Snapshot(q, [n]));
  }

  /** Two passes about to probe the tunnel's one node, which is dead, and a fresh one free. */
  ghost predicate Doubled(maxMisses: int, s: System, t: TunnelId, p: PassId, q: PassId, n: NodeId, m: NodeId) {
    && Exact(s.e) && StrikesOk(maxMisses, s.e, s.trail) && Serving(s.e, t) && m != n
    && AssignedTo(s.e.nodes, t) == {n} && Free(s.e.nodes) == {m} && m in s.e.nodes && s.e.nodes[n].state == Dead
    && p != q && p in s.passes && q in s.passes && s.passes[p] == Probing(t, [n]) == s.passes[q]
  }

  lemma LooseDoubles(maxMisses: int, s0: System, s: System, t: TunnelId, p: PassId)
    returns (d: System, q: PassId, r: PassId, n: NodeId, m: NodeId)
    requires GuardedLeads(maxMisses, s0, s) && Loose(maxMisses, s, t, p)
    ensures GuardedLeads(maxMisses, s0, d) && Doubled(maxMisses, d, t, q, r, n, m)
  {
    hide GuardedLeads, Exact, StrikesOk, AssignedTo, Free, Added, Servable;
    var supplied;
    supplied, n := Supplied(maxMisses, s0, s, t, p);
    var given, g := SecondCommits(maxMisses, s0, supplied, t, p, n);
    PassEnds(maxMisses, s0, given, t, g);
    var alone := given.(e := given.e.(busy := given.e.busy - {t}), passes := given.passes - {g});
    q := FreshPass(alone.passes.Keys);
    var one := Snaps(maxMisses, s0, alone, t, q, n);
    PassEnds(maxMisses, s0, one, t, p);
    var freed := one.(e := one.e.(busy := one.e.busy - {t}), passes := one.passes - {p});
    r := FreshPass(freed.passes.Keys);
    var two := Snaps(maxMisses, s0, freed, t, r, n);
    FlagsIrrelevant(maxMisses, given.e, two.e, given.trail);
    d, m := Exchangeable(maxMisses, s0, two, t, n);
  }

  /** The node dies and a fresh one turns up. */
  lemma Exchangeable(maxMisses: int, s0: System, s: System, t: TunnelId, n: NodeId) returns (d: System, m: NodeId)
    requires GuardedLeads(maxMisses, s0, s) && Exact(s.e) && StrikesOk(maxMisses, s.e, s.trail)
    requires AssignedTo(s.e.nodes, t) == {n}
    ensures GuardedLeads(maxMisses, s0, d) && d == s.(e := s.e.(nodes := d.e.nodes))
    ensures Exact(d.e) && StrikesOk(maxMisses, d.e, d.trail) && m != n && m in d.e.nodes
    ensures AssignedTo(d.e.nodes, t) == {n} && Free(d.e.nodes) == {m} && d.e.nodes[n].state == Dead
  {
    hide GuardedLeads, Exact, StrikesOk, AssignedTo, Free;
    m := FreshId(s.e.nodes.Keys);
    Stored(s.e.nodes, t, n);
    var after := Added(s.e.nodes, m);
    AddedMeans(s.e.nodes, m, t);
    RecolouredKeeps(maxMisses, s.e, after, s.trail);
    Onward(maxMisses, s0, s, NodesChange(after));
    d := s.(e := s.e.(nodes := after));
  }

  /** With one strike allowed, the first pass swaps the dead node for the fresh one. */
  lemma FirstSwaps(maxMisses: int, s: System, t: TunnelId, n: NodeId, m: NodeId)
    requires Exact(s.e) && StrikesOk(maxMisses, s.e, s.trail) && Serving(s.e, t) && maxMisses <= 1 && m != n
    requires AssignedTo(s.e.nodes, t) == {n} && Free(s.e.nodes) == {m} && m in s.e.nodes && s.e.nodes[n].state == Dead
    ensures var j := Judged(s.e, t, [n], map[n := false], maxMisses);
            var f := Committed(s.e, t, [n], map[n := false], maxMisses, [m]);
            && IsRanking(j.nodes, [m]) && Exact(f) && Serving(f, t) && f.tunnels[t].granted == 1
            && StrikesOk(maxMisses, f, Fresh(Extended(s.trail, j.nodes, t, [n], map[n := false]), f.nodes))
            && AssignedTo(f.nodes, t) == {m} && Free(f.nodes) == {}
            && n in f.nodes && f.nodes[n].assignedTo.None? && f.nodes[n].state == Dead
  {
    hide Judged, StrikesOk, SwapCount, Fresh, Extended, Free, AssignedTo;
    var j := Judged(s.e, t, [n], map[n := false], maxMisses);
    assert s.e.tunnels[t].granted == |AssignedTo(s.e.nodes, t)| == 1 <= s.e.tunnels[t].requested;
    hide Exact;
    OneDead(maxMisses, s.e, s.trail, t, n);
    Stored(s.e.nodes, t, n);
    SwapNodes(s.e.nodes, t, n, m);
    OneElement(n);
    OneElement(m);
    hide Distinct, Elements;
    CommittedKeeps(s.e, t, [n], map[n := false], maxMisses, [m], s.trail);
    assert TopUpIds(j, t, [m]) == [m];
  }

  lemma OneElement(n: NodeId)
    ensures Distinct([n]) && Elements([n]) == {n}
  {
  }

  lemma SwapNodes(nodes: Nodes, t: TunnelId, n: NodeId, m: NodeId)
    requires AssignedTo(nodes, t) == {n} && Free(nodes) == {m} && m in nodes && n in nodes && nodes[n].state == Dead
    requires m != n
    ensures var out := Unassign(nodes, n);
            var f := Assign(out, {m}, t);
            && Free(out) == {m} && AssignedTo(f, t) == {m} && Free(f) == {}
            && n in f && f[n].assignedTo.None? && f[n].state == Dead
  {
    var out := Unassign(nodes, n);
    var f := Assign(out, {m}, t);
    forall x ensures x !in AssignedTo(out, t) {
      if x in out && x != n { assert x !in AssignedTo(nodes, t); }
    }
    assert Free(out) == {m};
    forall x ensures x in AssignedTo(f, t) <==> x == m {
      if x in out && x != m { assert x !in AssignedTo(out, t); }
    }
    forall x ensures x !in Free(f) {
      if x in out && x != m { assert x !in Free(out); }
    }
  }

  /** A dead verdict on one node, at its limit, swaps it out of the tunnel whoever holds it. */
  lemma OneDead(maxMisses: int, e: Engine, trail: map<Key, seq<bool>>, t: TunnelId, n: NodeId)
    requires StrikesOk(maxMisses, e, trail) && maxMisses <= 1 && Serving(e, t) && e.tunnels[t].granted == 1
    ensures var j := Judged(e, t, [n], map[n := false], maxMisses);
            && j.nodes == Unassign(e.nodes, n) && SwapCount(e, t, [n], map[n := false], maxMisses) == 1
            && t in j.tunnels && j.tunnels[t] == Tunnel(Running, e.tunnels[t].requested, 0)
  {
    AlwaysSwaps(maxMisses, e, trail, t, n);
    var snap, results := [n], map[n := false];
    assert snap[..0] == [];
    assert Judged(e, t, snap, results, maxMisses) == JudgeOne(e, t, n, false, maxMisses);
  }

  lemma AlwaysSwaps(maxMisses: int, e: Engine, trail: map<Key, seq<bool>>, t: TunnelId, n: NodeId)
    requires StrikesOk(maxMisses, e, trail) && maxMisses <= 1
    ensures SwapsOut(e, Key(t, n), false, maxMisses)
  {
  }

  /** The second pass's verdict on the node swapped out is counted against the one swapped in. */
  lemma SecondMiscounts(maxMisses: int, e: Engine, trail: map<Key, seq<bool>>, t: TunnelId, n: NodeId, m: NodeId)
    requires StrikesOk(maxMisses, e, trail) && Serving(e, t) && e.tunnels[t].granted == 1 && maxMisses <= 1
    requires AssignedTo(e.nodes, t) == {m} && Free(e.nodes) == {}
    requires n in e.nodes && e.nodes[n].assignedTo.None? && e.nodes[n].state == Dead
    ensures IsRanking(Judged(e, t, [n], map[n := false], maxMisses).nodes, [])
    ensures !Exact(Committed(e, t, [n], map[n := false], maxMisses, []))
  {
    hide Judged, SwapCount, StrikesOk;
    OneDead(maxMisses, e, trail, t, n);
    assert Unassign(e.nodes, n) == e.nodes;
    var f := Committed(e, t, [n], map[n := false], maxMisses, []);
    assert f.nodes == e.nodes && f.tunnels[t].granted == 0;
  }

  /** When one missed probe swaps a node out, two passes at once also break the count. */
  lemma LooseMiscounts(maxMisses: int, s0: System, s: System, t: TunnelId, p: PassId) returns (d: System)
    requires GuardedLeads(maxMisses, s0, s) && Loose(maxMisses, s, t, p) && maxMisses <= 1
    ensures GuardedLeads(maxMisses, s0, d) && !Exact(d.e)
  {
    hide GuardedLeads, Exact, StrikesOk, AssignedTo, Free, Judged, Committed, Fresh, Extended, IsRanking, Loose;
    var two, q, r, n, m := LooseDoubles(maxMisses, s0, s, t, p);
    var results := map[n := false];
    FirstSwaps(maxMisses, two, t, n, m);
    var swapped := Step(maxMisses, two, Commit(q, results, [m])).value;
    Onward(maxMisses, s0, two, Commit(q, results, [m]));
    SecondMiscounts(maxMisses, swapped.e, swapped.trail, t, n, m);
    d := Step(maxMisses, swapped, Commit(r, results, [])).value;
    Onward(maxMisses, s0, swapped, Commit(r, results, []));
  }

  // ----- Exactly when a create that finishes is harmless -----

  /**
    A create that finishes is harmless if and only if its row is still there, or it was granted
    no node and at most one pass of it is in flight, known to the busy flag: then in every run
    from there the counts stay exact and the tunnel shares no node with another while neither
    awaits a redeploy; otherwise some run breaks one or the other.
   */
  lemma FinishHarmlessIff(maxMisses: int, events: seq<Event>, s: System, t: TunnelId)
    requires Reached(maxMisses, events, s) && t in s.creating
    ensures var d := Step(maxMisses, s, CreateFinish(t)).value;
            (forall f :: GuardedLeads(maxMisses, d, f) ==> Exact(f.e) && !Shares(f, t)) <==> Finishable(s, t)
    ensures Finishable(s, t) ==>
              forall f :: GuardedLeads(maxMisses, Step(maxMisses, s, CreateFinish(t)).value, f) ==> Inv(maxMisses, f)
  {
    hide Exact, Shares, Finishable;
    ReachedInv(maxMisses, events, s);
    var d := Step(maxMisses, s, CreateFinish(t)).value;
    if Finishable(s, t) {
      FinishedStays(maxMisses, s, t);
    } else {
      var f := FinishBreaks(maxMisses, s, t);
    }
  }

  lemma FinishedStays(maxMisses: int, s: System, t: TunnelId)
    requires Inv(maxMisses, s) && t in s.creating && Finishable(s, t)
    ensures forall f :: GuardedLeads(maxMisses, Step(maxMisses, s, CreateFinish(t)).value, f) ==>
              Inv(maxMisses, f) && Exact(f.e) && !Shares(f, t)
  {
    var d := Step(maxMisses, s, CreateFinish(t)).value;
    StepKeeps(maxMisses, s, CreateFinish(t));
    hide Exact, Shares, Step, IdsOk, CreationsOk, BuildingOk, PassesOk, DeploysOk, StrikesOk;
    forall f | GuardedLeads(maxMisses, d, f) ensures Inv(maxMisses, f) && !Shares(f, t) {
      var later :| GuardedRun(maxMisses, d, later) && Run(maxMisses, d, later) == Some(f);
      RunKeeps(maxMisses, d, later);
      NoneShares(maxMisses, f, t);
    }
  }

  lemma FinishBreaks(maxMisses: int, s: System, t: TunnelId) returns (f: System)
    requires Inv(maxMisses, s) && t in s.creating && !Finishable(s, t)
    ensures GuardedLeads(maxMisses, Step(maxMisses, s, CreateFinish(t)).value, f)
    ensures if s.creating[t].nodes != [] then !Exact(f.e) else Shares(f, t)
  {
    hide GuardedLeads, Inv, Exact, Shares, Loose, Empty;
    f := Step(maxMisses, s, CreateFinish(t)).value;
    if s.creating[t].nodes != [] {
      ClaimsTooMuch(maxMisses, s, t);
      LeadsHere(maxMisses, f);
    } else {
      RevivedEmpty(maxMisses, s, t);
      var loose, p := Loosened(maxMisses, f, t);
      f := LooseShares(maxMisses, f, loose, t, p);
    }
  }

  /** And where one missed probe swaps a node out, some run breaks the counts in either case. */
  lemma FinishMiscounts(maxMisses: int, s: System, t: TunnelId) returns (f: System)
    requires Inv(maxMisses, s) && t in s.creating && !Finishable(s, t) && maxMisses <= 1
    ensures GuardedLeads(maxMisses, Step(maxMisses, s, CreateFinish(t)).value, f) && !Exact(f.e)
  {
    hide GuardedLeads, Inv, Exact, Loose, Empty;
    f := Step(maxMisses, s, CreateFinish(t)).value;
    if s.creating[t].nodes != [] {
      ClaimsTooMuch(maxMisses, s, t);
      LeadsHere(maxMisses, f);
    } else {
      RevivedEmpty(maxMisses, s, t);
      var loose, p := Loosened(maxMisses, f, t);
      f := LooseMiscounts(maxMisses, f, loose, t, p);
    }
  }
}
