/**
  A failed update that leaves its new container running: exactly when that is harmless, and
  how two tunnels come to share a node when it is not.
 */
module HealthStray {
  import opened Collections
  import opened Wrappers
  import opened EngineStore
  import opened HealthProtocol
  import opened HealthSafety
  import opened HealthTheorems

  // ----- What more every run keeps -----

  /**
    Rows are starting or running; a running one has a rendered config, of stored nodes and no
    more of them than the tunnel asked for.
   */
  ghost predicate RenderedOk(e: Engine) {
    forall t :: t in e.tunnels ==>
      && e.tunnels[t].state in {Starting, Running}
      && (e.tunnels[t].state == Running ==> t in e.rendered)
      && (t in e.rendered ==> e.rendered[t] <= e.nodes.Keys && |e.rendered[t]| <= e.tunnels[t].requested)
  }

  /** What judging and topping up leave of the node keys and the rows. */
  ghost predicate RowsAlike(e: Engine, f: Engine) {
    && f.nodes.Keys == e.nodes.Keys && f.tunnels.Keys == e.tunnels.Keys && f.rendered == e.rendered
    && forall u :: u in e.tunnels ==>
         f.tunnels[u].requested == e.tunnels[u].requested
         && (f.tunnels[u].state == e.tunnels[u].state
             || (e.tunnels[u].state != Starting && f.tunnels[u].state == Running))
  }

  lemma {:induction false} JudgedAlike(e: Engine, t: TunnelId, snap: seq<NodeId>, results: map<NodeId, bool>,
                                       maxMisses: int)
    requires Covers(results, snap) && Serving(e, t)
    ensures var j := Judged(e, t, snap, results, maxMisses); RowsAlike(e, j) && Serving(j, t)
  {
    if snap != [] {
      var init := snap[..|snap| - 1];
      JudgedAlike(e, t, init, results, maxMisses);
      OneAlike(e, Judged(e, t, init, results, maxMisses), t, snap[|snap| - 1], results[snap[|snap| - 1]], maxMisses);
    }
  }

  lemma OneAlike(e: Engine, j: Engine, t: TunnelId, n: NodeId, alive: bool, maxMisses: int)
    requires RowsAlike(e, j) && Serving(j, t) && Serving(e, t)
    ensures var one := JudgeOne(j, t, n, alive, maxMisses); RowsAlike(e, one) && Serving(one, t)
  {
    assert Unassign(j.nodes, n).Keys == j.nodes.Keys;
  }

  lemma CommittedAlike(e: Engine, t: TunnelId, snap: seq<NodeId>, results: map<NodeId, bool>, maxMisses: int,
                       order: seq<NodeId>)
    requires Covers(results, snap)
    ensures RowsAlike(e, Committed(e, t, snap, results, maxMisses, order))
  {
    if Serving(e, t) {
      JudgedAlike(e, t, snap, results, maxMisses);
      hide Judged, SwapCount;
    }
  }

  lemma RolledRendered(maxMisses: int, s: System, p: PassId)
    requires Inv(maxMisses, s) && RenderedOk(s.e) && p in s.passes && s.passes[p].Rolling?
    ensures RenderedOk(s.e.(rendered := s.e.rendered[s.passes[p].t := s.passes[p].sig],
                            pending := s.e.pending - {s.passes[p].t}))
  {
    assert PassOk(s.e, s.passes[p]);
    var t, sig := s.passes[p].t, s.passes[p].sig;
    if t in s.e.tunnels {
      SubsetCard(sig, AssignedTo(s.e.nodes, t));
      assert s.e.tunnels[t].granted == |AssignedTo(s.e.nodes, t)| <= s.e.tunnels[t].requested;
    }
  }

  lemma FinishedRendered(maxMisses: int, s: System, t: TunnelId)
    requires Inv(maxMisses, s) && RenderedOk(s.e) && t in s.creating && Finishable(s, t)
    ensures RenderedOk(Step(maxMisses, s, CreateFinish(t)).value.e)
  {
    hide LonePass, PassesOk, DeploysOk, StrikesOk, BuildingOk;
    var c := s.creating[t];
    if t in s.e.tunnels {
      ElementsCard(c.nodes);
      assert Elements(c.nodes) == AssignedTo(s.e.nodes, t);
    }
  }

  lemma RenderedKeeps(maxMisses: int, s: System, ev: Event)
    requires Inv(maxMisses, s) && RenderedOk(s.e) && Guarded(s, ev) && Step(maxMisses, s, ev).Some?
    ensures RenderedOk(Step(maxMisses, s, ev).value.e)
  {
    hide Exact, StrikesOk, CreationsOk, PassesOk, DeploysOk, BuildingOk, Committed, Judged, Fresh, Extended;
    match ev {
      case Commit(p, results, order) =>
        if s.passes[p].Probing? { CommittedAlike(s.e, s.passes[p].t, s.passes[p].snap, results, maxMisses, order); }
      case RollOut(p, Rolled) => RolledRendered(maxMisses, s, p);
      case CreateFinish(t) => FinishedRendered(maxMisses, s, t);
      case _ => OtherRendered(maxMisses, s, ev);
    }
  }

  lemma OtherRendered(maxMisses: int, s: System, ev: Event)
    requires IdsOk(s) && RenderedOk(s.e) && Step(maxMisses, s, ev).Some?
    requires !ev.Commit? && !ev.CreateFinish? && !(ev.RollOut? && ev.update.Rolled?)
    ensures RenderedOk(Step(maxMisses, s, ev).value.e)
  {
    hide Committed, Judged, Fresh, Extended, IsRanking;
  }

  lemma {:induction false} RunRendered(maxMisses: int, s: System, events: seq<Event>)
    requires Inv(maxMisses, s) && RenderedOk(s.e) && GuardedRun(maxMisses, s, events) && Run(maxMisses, s, events).Some?
    ensures RenderedOk(Run(maxMisses, s, events).value.e)
  {
    if events != [] {
      var init := events[..|events| - 1];
      RunRendered(maxMisses, s, init);
      RunKeeps(maxMisses, s, init);
      RenderedKeeps(maxMisses, Run(maxMisses, s, init).value, events[|events| - 1]);
    }
  }

  // ----- Runs that go on -----

  ghost predicate GuardedLeads(maxMisses: int, s: System, f: System) {
    exists events :: GuardedRun(maxMisses, s, events) && Run(maxMisses, s, events) == Some(f)
  }

  lemma LeadsHere(maxMisses: int, s: System)
    ensures GuardedLeads(maxMisses, s, s)
  {
    assert GuardedRun(maxMisses, s, []) && Run(maxMisses, s, []) == Some(s);
  }

  lemma Onward(maxMisses: int, s: System, m: System, ev: Event)
    requires GuardedLeads(maxMisses, s, m) && Step(maxMisses, m, ev).Some? && Guarded(m, ev)
    ensures GuardedLeads(maxMisses, s, Step(maxMisses, m, ev).value)
  {
    var events :| GuardedRun(maxMisses, s, events) && Run(maxMisses, s, events) == Some(m);
    assert (events + [ev])[..|events|] == events;
    assert GuardedRun(maxMisses, s, events + [ev]);
    assert Run(maxMisses, s, events + [ev]) == Step(maxMisses, m, ev);
  }

  /** Tunnel `t` is serving, no pass of it is under way, pass id `p` is free, and the counts are exact. */
  ghost predicate Ready(maxMisses: int, s: System, t: TunnelId, p: PassId) {
    && IdsOk(s) && Exact(s.e) && StrikesOk(maxMisses, s.e, s.trail)
    && Serving(s.e, t) && t !in s.e.busy && p !in s.passes
  }

  /**
    What the steps below leave of tunnel `t`: its container, its rendered config, its request;
    and the node keys and the passes in flight.
   */
  ghost predicate Stands(s: System, d: System, t: TunnelId) {
    && t in s.e.tunnels && t in d.e.tunnels && d.e.tunnels[t].requested == s.e.tunnels[t].requested
    && (t in d.containers <==> t in s.containers) && (t in s.containers ==> d.containers[t] == s.containers[t])
    && (t in d.e.rendered <==> t in s.e.rendered) && (t in s.e.rendered ==> d.e.rendered[t] == s.e.rendered[t])
    && d.e.nodes.Keys == s.e.nodes.Keys && d.passes == s.passes
  }

  // ----- Rows recoloured -----

  /** Exactly the nodes of `live` alive and dialable. */
  function Recoloured(nodes: Nodes, live: set<NodeId>): Nodes {
    map n | n in nodes :: nodes[n].(state := if n in live then Alive else Dead, protocol := Ss)
  }

  lemma Recolour(maxMisses: int, s0: System, s: System, t: TunnelId, p: PassId, live: set<NodeId>)
    requires GuardedLeads(maxMisses, s0, s) && Ready(maxMisses, s, t, p)
    ensures var d := s.(e := s.e.(nodes := Recoloured(s.e.nodes, live)));
            && GuardedLeads(maxMisses, s0, d) && Ready(maxMisses, d, t, p) && Stands(s, d, t)
            && (forall u :: AssignedTo(d.e.nodes, u) == AssignedTo(s.e.nodes, u))
            && Free(d.e.nodes) == (set n | n in live && n in s.e.nodes && s.e.nodes[n].assignedTo.None?)
            && Servable(d.e.nodes, t) == AssignedTo(s.e.nodes, t) * live
  {
    hide Exact, StrikesOk, Pairs, AssignedTo, SameAssignments, Free, Servable, Recoloured, GuardedLeads;
    var after := Recoloured(s.e.nodes, live);
    RecolouredMeans(s.e.nodes, live, t);
    SameAssigned(s.e.nodes, after);
    RecolouredKeeps(maxMisses, s.e, after, s.trail);
    Onward(maxMisses, s0, s, NodesChange(after));
  }

  lemma RecolouredMeans(nodes: Nodes, live: set<NodeId>, t: TunnelId)
    ensures var after := Recoloured(nodes, live);
            && SameAssignments(nodes, after) && after.Keys == nodes.Keys
            && Free(after) == (set n | n in live && n in nodes && nodes[n].assignedTo.None?)
            && Servable(after, t) == AssignedTo(nodes, t) * live
  {
  }

  lemma RecolouredKeeps(maxMisses: int, e: Engine, after: Nodes, trail: map<Key, seq<bool>>)
    requires Exact(e) && StrikesOk(maxMisses, e, trail) && SameAssignments(e.nodes, after)
    ensures Exact(e.(nodes := after)) && StrikesOk(maxMisses, e.(nodes := after), trail)
  {
    SameAssigned(e.nodes, after);
    hide AssignedTo, Pairs, DeadRun;
  }

  // ----- Everybody else deleted -----

  lemma DeleteOne(maxMisses: int, s0: System, s: System, t: TunnelId, p: PassId, u: TunnelId)
    requires GuardedLeads(maxMisses, s0, s) && Ready(maxMisses, s, t, p) && u in s.e.tunnels && u != t
    ensures var d := Step(maxMisses, s, Delete(u, false)).value;
            && GuardedLeads(maxMisses, s0, d) && Ready(maxMisses, d, t, p) && Stands(s, d, t)
            && d.e.tunnels == s.e.tunnels - {u} && d.issued == s.issued
            && AssignedTo(d.e.nodes, t) == AssignedTo(s.e.nodes, t)
            && (t in s.e.pending ==> t in d.e.pending)
  {
    hide Exact, StrikesOk, Pairs, AssignedTo, GuardedLeads, Fresh, Release;
    var d := Step(maxMisses, s, Delete(u, false)).value;
    GoneReady(maxMisses, s.e, u, s.trail);
    ReleaseFacts(s.e.nodes, u);
    Onward(maxMisses, s0, s, Delete(u, false));
  }

  lemma GoneReady(maxMisses: int, e: Engine, u: TunnelId, trail: map<Key, seq<bool>>)
    requires Exact(e) && StrikesOk(maxMisses, e, trail)
    ensures var f := Forgotten(Dropped(e, u), u);
            Exact(f) && StrikesOk(maxMisses, f, Fresh(trail, f.nodes)) && f.nodes.Keys == e.nodes.Keys
  {
    hide AssignedTo, Pairs;
    DroppedExact(e, u);
    DroppedStrikes(maxMisses, e, Forgotten(Dropped(e, u), u), u, trail);
    hide StrikesOk;
  }

  lemma {:induction false} DeleteOthers(maxMisses: int, s0: System, s: System, t: TunnelId, p: PassId)
    returns (d: System)
    requires GuardedLeads(maxMisses, s0, s) && Ready(maxMisses, s, t, p)
    ensures GuardedLeads(maxMisses, s0, d) && Ready(maxMisses, d, t, p) && Stands(s, d, t)
    ensures d.e.tunnels.Keys == {t} && AssignedTo(d.e.nodes, t) == AssignedTo(s.e.nodes, t)
    ensures t in s.e.pending ==> t in d.e.pending
    decreases |s.e.tunnels.Keys|
  {
    hide IdsOk, Exact, StrikesOk, GuardedLeads, AssignedTo;
    if s.e.tunnels.Keys == {t} {
      d := s;
    } else {
      var u :| u in s.e.tunnels.Keys && u != t;
      DeleteOne(maxMisses, s0, s, t, p, u);
      var m := Step(maxMisses, s, Delete(u, false)).value;
      assert m.e.tunnels.Keys == s.e.tunnels.Keys - {u};
      hide Step;
      d := DeleteOthers(maxMisses, s0, m, t, p);
    }
  }

  // ----- One pass -----

  /** The engine at the commit of a pass begun at `e`: the same with the tunnel busy. */
  function Busied(e: Engine, t: TunnelId): Engine { e.(busy := e.busy + {t}) }

  /** The state after begin, snapshot and commit of a pass, which stands where its commit left it. */
  ghost function CommittedIn(maxMisses: int, s: System, t: TunnelId, p: PassId, snap: seq<NodeId>,
                             results: map<NodeId, bool>, order: seq<NodeId>): System
    requires Covers(results, snap)
  {
    var after := Committed(Busied(s.e, t), t, snap, results, maxMisses, order);
    var judged := Judged(Busied(s.e, t), t, snap, results, maxMisses);
    s.(e := after, passes := s.passes[p := if t in after.pending then Deploying(t, false) else Healing(t)],
       trail := Fresh(Extended(s.trail, judged.nodes, t, snap, results), after.nodes))
  }

  lemma PassCommits(maxMisses: int, s0: System, s: System, t: TunnelId, p: PassId, snap: seq<NodeId>,
                    results: map<NodeId, bool>, order: seq<NodeId>)
    requires GuardedLeads(maxMisses, s0, s) && Ready(maxMisses, s, t, p) && Covers(results, snap)
    requires Distinct(snap) && Elements(snap) == AssignedTo(s.e.nodes, t)
    requires IsRanking(Judged(Busied(s.e, t), t, snap, results, maxMisses).nodes, order)
    ensures GuardedLeads(maxMisses, s0, CommittedIn(maxMisses, s, t, p, snap, results, order))
  {
    hide GuardedLeads, Judged, Committed, Exact, StrikesOk, IsRanking, AssignedTo, Distinct, Elements, Fresh, Extended;
    var begun := s.(e := Busied(s.e, t), passes := s.passes[p := Begun(t, false)]);
    assert Step(maxMisses, s, PassBegin(p, t, false)) == Some(begun);
    Onward(maxMisses, s0, s, PassBegin(p, t, false));
    var probing := begun.(passes := s.passes[p := Probing(t, snap)]);
    assert begun.passes[p := Probing(t, snap)] == s.passes[p := Probing(t, snap)];
    assert Step(maxMisses, begun, Snapshot(p, snap)) == Some(probing);
    Onward(maxMisses, s0, begun, Snapshot(p, snap));
    var d := CommittedIn(maxMisses, s, t, p, snap, results, order);
    assert probing.passes[p := d.passes[p]] == d.passes;
    assert Step(maxMisses, probing, Commit(p, results, order)) == Some(d);
    Onward(maxMisses, s0, probing, Commit(p, results, order));
  }

  /** The pass given up and ended. */
  lemma PassEnds(maxMisses: int, s0: System, m: System, t: TunnelId, p: PassId)
    requires GuardedLeads(maxMisses, s0, m) && p in m.passes && m.passes[p].t == t
    ensures GuardedLeads(maxMisses, s0, m.(e := m.e.(busy := m.e.busy - {t}), passes := m.passes - {p}))
  {
    hide GuardedLeads;
    var ending := Move(m, p, Ending(t));
    assert Step(maxMisses, m, PassRaises(p)) == Some(ending);
    Onward(maxMisses, s0, m, PassRaises(p));
    assert ending.passes - {p} == m.passes - {p};
    assert Step(maxMisses, ending, PassEnd(p)) ==
           Some(m.(e := m.e.(busy := m.e.busy - {t}), passes := m.passes - {p}));
    Onward(maxMisses, s0, ending, PassEnd(p));
  }

  lemma SeqOf(s: set<NodeId>) returns (q: seq<NodeId>)
    ensures Distinct(q) && Elements(q) == s
  {
    if s == {} {
      q := [];
    } else {
      var x :| x in s;
      var rest := SeqOf(s - {x});
      q := rest + [x];
      assert x !in Elements(rest);
      assert Elements(q) == Elements(rest) + {x};
    }
  }

  // ----- Bad nodes struck until they are gone -----

  ghost predicate AllDead(nodes: Nodes) {
    forall n :: n in nodes ==> nodes[n].state == Dead
  }

  /** With nothing to hand out, the locked section only judges. */
  lemma DeadPool(e: Engine, t: TunnelId, snap: seq<NodeId>, results: map<NodeId, bool>, maxMisses: int)
    requires Covers(results, snap) && Distinct(snap) && Exact(e) && Serving(e, t) && AllDead(e.nodes)
    requires Elements(snap) == AssignedTo(e.nodes, t)
    ensures var j := Judged(e, t, snap, results, maxMisses);
            var f := Committed(e, t, snap, results, maxMisses, []);
            var swapped := SwapSet(e, t, snap, results, maxMisses);
            && IsRanking(j.nodes, []) && AllDead(j.nodes) && NodesJudged(e, j, swapped)
            && StrikesJudged(e, j, t, snap, results, maxMisses)
            && AssignedTo(j.nodes, t) == AssignedTo(e.nodes, t) - swapped
            && f == j.(pending := if swapped != {} then e.pending + {t} else e.pending)
  {
    assert e.tunnels[t].granted == |AssignedTo(e.nodes, t)|;
    hide Judged, Exact, AssignedTo, StrikesJudged, RowJudged, SwapSet, NodesJudged, AllDead, IsRanking, Distinct,
         Elements;
    JudgedExactly(e, t, snap, results, maxMisses);
    StillDead(e, Judged(e, t, snap, results, maxMisses), SwapSet(e, t, snap, results, maxMisses));
  }

  lemma StillDead(e: Engine, j: Engine, swapped: set<NodeId>)
    requires AllDead(e.nodes) && NodesJudged(e, j, swapped)
    ensures AllDead(j.nodes) && IsRanking(j.nodes, [])
  {
    assert Free(j.nodes) == {};
  }

  /** Every bad node has at most `k` more dead verdicts to go. */
  ghost predicate Close(maxMisses: int, e: Engine, t: TunnelId, bad: set<NodeId>, k: nat) {
    forall n :: n in bad && n in AssignedTo(e.nodes, t) ==> StrikeCount(e, Key(t, n)) >= maxMisses - k
  }

  lemma CloserAfter(maxMisses: int, e: Engine, j: Engine, t: TunnelId, snap: seq<NodeId>, results: map<NodeId, bool>,
                    bad: set<NodeId>, k: nat)
    requires Covers(results, snap) && StrikesJudged(e, j, t, snap, results, maxMisses) && k >= 1
    requires Elements(snap) == AssignedTo(e.nodes, t) && Close(maxMisses, e, t, bad, k)
    requires forall n :: n in snap ==> (results[n] <==> n !in bad)
    requires AssignedTo(j.nodes, t) == AssignedTo(e.nodes, t) - SwapSet(e, t, snap, results, maxMisses)
    ensures SwapSet(e, t, snap, results, maxMisses) <= bad
    ensures Close(maxMisses, j, t, bad, k - 1)
    ensures k == 1 ==> AssignedTo(j.nodes, t) == AssignedTo(e.nodes, t) - bad
  {
    hide AssignedTo;
    var swapped := SwapSet(e, t, snap, results, maxMisses);
    forall n | n in AssignedTo(e.nodes, t) ensures n in snap { assert n in Elements(snap); }
    forall n | n in bad && n in AssignedTo(j.nodes, t) ensures StrikeCount(j, Key(t, n)) >= maxMisses - (k - 1) {
      var key := Key(t, n);
      assert key.tunnel == t && key.node in snap && n !in swapped;
    }
    if k == 1 {
      forall n | n in bad && n in AssignedTo(e.nodes, t) ensures n in swapped {
        assert StrikeCount(e, Key(t, n)) >= maxMisses - 1;
      }
    }
  }

  /** The verdicts of one round: dead for the bad nodes, alive for the rest. */
  ghost predicate RoundOf(e: Engine, t: TunnelId, bad: set<NodeId>, snap: seq<NodeId>, results: map<NodeId, bool>) {
    && Covers(results, snap) && Distinct(snap) && Elements(snap) == AssignedTo(e.nodes, t)
    && forall n :: n in snap ==> (results[n] <==> n !in bad)
  }

  lemma RoundVerdicts(e: Engine, t: TunnelId, bad: set<NodeId>) returns (snap: seq<NodeId>, results: map<NodeId, bool>)
    ensures RoundOf(e, t, bad, snap, results)
  {
    snap := SeqOf(AssignedTo(e.nodes, t));
    results := map n | n in Elements(snap) :: n !in bad;
    assert forall n :: n in snap ==> n in Elements(snap);
  }

  /** What the locked section of such a round leaves. */
  lemma Struck(maxMisses: int, s: System, t: TunnelId, bad: set<NodeId>, k: nat, snap: seq<NodeId>,
               results: map<NodeId, bool>)
    requires Exact(s.e) && StrikesOk(maxMisses, s.e, s.trail) && Serving(s.e, t) && AllDead(s.e.nodes)
    requires RoundOf(s.e, t, bad, snap, results) && k >= 1 && Close(maxMisses, s.e, t, bad, k)
    ensures var e := Busied(s.e, t);
            var j := Judged(e, t, snap, results, maxMisses);
            var f := Committed(e, t, snap, results, maxMisses, []);
            && IsRanking(j.nodes, []) && AllDead(f.nodes) && Close(maxMisses, f, t, bad, k - 1)
            && Exact(f) && StrikesOk(maxMisses, f, Fresh(Extended(s.trail, j.nodes, t, snap, results), f.nodes))
            && Serving(f, t) && RowsAlike(e, f) && f.busy == e.busy && f.rendered == e.rendered
            && AssignedTo(s.e.nodes, t) - bad <= AssignedTo(f.nodes, t) <= AssignedTo(s.e.nodes, t)
            && (k == 1 ==> AssignedTo(f.nodes, t) == AssignedTo(s.e.nodes, t) - bad)
            && e.pending <= f.pending <= e.pending + {t}
            && (AssignedTo(f.nodes, t) != AssignedTo(s.e.nodes, t) ==> t in f.pending)
  {
    hide AssignedTo, AllDead, StrikesJudged, NodesJudged, SwapSet, Judged, Committed, Exact, StrikesOk, IsRanking,
         Close, Distinct, Fresh, Extended;
    var e := Busied(s.e, t);
    FlagsIrrelevant(maxMisses, s.e, e, s.trail);
    FlagsClose(maxMisses, s.e, e, t, bad, k);
    DeadPool(e, t, snap, results, maxMisses);
    var j := Judged(e, t, snap, results, maxMisses);
    CloserAfter(maxMisses, e, j, t, snap, results, bad, k);
    CommittedKeeps(e, t, snap, results, maxMisses, [], s.trail);
    CommittedAlike(e, t, snap, results, maxMisses, []);
    FlagsClose(maxMisses, j, Committed(e, t, snap, results, maxMisses, []), t, bad, k - 1);
  }

  lemma StrikeRound(maxMisses: int, s0: System, s: System, t: TunnelId, p: PassId, bad: set<NodeId>, k: nat)
    returns (d: System)
    requires GuardedLeads(maxMisses, s0, s) && Ready(maxMisses, s, t, p) && AllDead(s.e.nodes)
    requires k >= 1 && Close(maxMisses, s.e, t, bad, k)
    ensures GuardedLeads(maxMisses, s0, d) && Ready(maxMisses, d, t, p) && AllDead(d.e.nodes) && Stands(s, d, t)
    ensures d.e.tunnels.Keys == s.e.tunnels.Keys && Close(maxMisses, d.e, t, bad, k - 1)
    ensures AssignedTo(s.e.nodes, t) - bad <= AssignedTo(d.e.nodes, t) <= AssignedTo(s.e.nodes, t)
    ensures k == 1 ==> AssignedTo(d.e.nodes, t) == AssignedTo(s.e.nodes, t) - bad
    ensures t in s.e.pending || AssignedTo(d.e.nodes, t) != AssignedTo(s.e.nodes, t) ==> t in d.e.pending
  {
    hide GuardedLeads, AssignedTo, AllDead, Judged, Committed, Exact, StrikesOk, IsRanking, Close, Distinct, Fresh,
         Extended, Elements;
    var snap, results := RoundVerdicts(s.e, t, bad);
    Struck(maxMisses, s, t, bad, k, snap, results);
    PassCommits(maxMisses, s0, s, t, p, snap, results, []);
    var m := CommittedIn(maxMisses, s, t, p, snap, results, []);
    PassEnds(maxMisses, s0, m, t, p);
    d := m.(e := m.e.(busy := m.e.busy - {t}), passes := m.passes - {p});
    FlagsIrrelevant(maxMisses, m.e, d.e, m.trail);
    FlagsClose(maxMisses, m.e, d.e, t, bad, k - 1);
    RoundStands(maxMisses, s, m, d, t, p);
  }

  /** The busy and pending flags matter to neither counts nor strikes. */
  lemma FlagsIrrelevant(maxMisses: int, e: Engine, f: Engine, trail: map<Key, seq<bool>>)
    requires f == e.(busy := f.busy, pending := f.pending)
    ensures Exact(e) ==> Exact(f)
    ensures StrikesOk(maxMisses, e, trail) ==> StrikesOk(maxMisses, f, trail)
  {
    hide AssignedTo, Pairs, DeadRun;
  }

  lemma FlagsClose(maxMisses: int, e: Engine, f: Engine, t: TunnelId, bad: set<NodeId>, k: nat)
    requires f == e.(busy := f.busy, pending := f.pending) && Close(maxMisses, e, t, bad, k)
    ensures Close(maxMisses, f, t, bad, k)
  {
    hide AssignedTo;
  }

  /** A pass that came and went leaves ids, flags and the tunnel's container as they were. */
  lemma RoundStands(maxMisses: int, s: System, m: System, d: System, t: TunnelId, p: PassId)
    requires IdsOk(s) && t in s.e.tunnels && t !in s.e.busy && p !in s.passes
    requires m == s.(e := m.e, passes := m.passes, trail := m.trail) && m.passes - {p} == s.passes - {p}
    requires m.e.busy == s.e.busy + {t} && m.e.rendered == s.e.rendered && RowsAlike(s.e, m.e)
    requires m.e.pending <= s.e.pending + {t}
    requires d == m.(e := m.e.(busy := m.e.busy - {t}), passes := m.passes - {p})
    ensures IdsOk(d) && Stands(s, d, t) && t !in d.e.busy && p !in d.passes
  {
    assert s.passes - {p} == s.passes;
  }

  /** Dead verdicts for the bad nodes, alive ones for the rest, until no bad one is left. */
  lemma {:induction false} Expel(maxMisses: int, s0: System, s: System, t: TunnelId, p: PassId, bad: set<NodeId>,
                                 k: nat)
    returns (d: System)
    requires GuardedLeads(maxMisses, s0, s) && Ready(maxMisses, s, t, p) && AllDead(s.e.nodes)
    requires k >= 1 && Close(maxMisses, s.e, t, bad, k)
    ensures GuardedLeads(maxMisses, s0, d) && Ready(maxMisses, d, t, p) && Stands(s, d, t)
    ensures d.e.tunnels.Keys == s.e.tunnels.Keys
    ensures AssignedTo(d.e.nodes, t) == AssignedTo(s.e.nodes, t) - bad
    ensures t in s.e.pending || AssignedTo(d.e.nodes, t) != AssignedTo(s.e.nodes, t) ==> t in d.e.pending
    decreases k
  {
    hide GuardedLeads, Ready, AssignedTo, AllDead, Close;
    d := StrikeRound(maxMisses, s0, s, t, p, bad, k);
    if k > 1 {
      d := Expel(maxMisses, s0, d, t, p, bad, k - 1);
    }
  }

  // ----- The pass that settles the tunnel on its last rendered config -----

  /** With every assigned node alive, the locked section only tops up. */
  lemma Refill(maxMisses: int, e: Engine, t: TunnelId, snap: seq<NodeId>, results: map<NodeId, bool>,
               order: seq<NodeId>, r: set<NodeId>)
    requires Covers(results, snap) && Distinct(snap) && Exact(e) && Serving(e, t)
    requires Elements(snap) == AssignedTo(e.nodes, t) && forall n :: n in snap ==> results[n]
    requires AssignedTo(e.nodes, t) <= r && |r| <= e.tunnels[t].requested && Free(e.nodes) == r - AssignedTo(e.nodes, t)
    requires Distinct(order) && Elements(order) == r - AssignedTo(e.nodes, t)
    ensures var j := Judged(e, t, snap, results, maxMisses);
            var f := Committed(e, t, snap, results, maxMisses, order);
            && IsRanking(j.nodes, order)
            && f.nodes == Assign(e.nodes, Elements(order), t) && AssignedTo(f.nodes, t) == r
            && f.rendered == e.rendered && e.pending <= f.pending <= e.pending + {t} && f.busy == e.busy
            && (order != [] ==> t in f.pending) && Serving(f, t) && f.tunnels.Keys == e.tunnels.Keys
  {
    hide Judged, Exact, SwapCount, AssignedTo, Free, Assign, Distinct, Elements, Provisioned, TopUpIds;
    var j := Judged(e, t, snap, results, maxMisses);
    AllAliveJudged(maxMisses, e, t, snap, results);
    ElementsCard(order);
    AssignFree(e.nodes, Elements(order), t);
    Parted(r, AssignedTo(e.nodes, t));
    RefillIds(j, t, order);
  }

  lemma Parted(r: set<NodeId>, a: set<NodeId>)
    requires a <= r
    ensures a + (r - a) == r && |r| == |a| + |r - a|
  {
    assert a + (r - a) == r;
  }

  lemma AllAliveJudged(maxMisses: int, e: Engine, t: TunnelId, snap: seq<NodeId>, results: map<NodeId, bool>)
    requires Covers(results, snap) && Distinct(snap) && Exact(e) && Serving(e, t)
    requires Elements(snap) == AssignedTo(e.nodes, t) && forall n :: n in snap ==> results[n]
    ensures var j := Judged(e, t, snap, results, maxMisses);
            && j.nodes == e.nodes && j.rendered == e.rendered && j.pending == e.pending && j.busy == e.busy
            && SwapCount(e, t, snap, results, maxMisses) == 0 && Serving(j, t) && j.tunnels.Keys == e.tunnels.Keys
            && j.tunnels[t].granted == |AssignedTo(e.nodes, t)| && j.tunnels[t].requested == e.tunnels[t].requested
  {
    assert e.tunnels[t].granted == |AssignedTo(e.nodes, t)|;
    hide Judged, Exact, StrikesJudged, AssignedTo, SwapCount;
    JudgedExactly(e, t, snap, results, maxMisses);
    assert SwapSet(e, t, snap, results, maxMisses) == {};
  }

  lemma RefillIds(j: Engine, t: TunnelId, order: seq<NodeId>)
    requires Serving(j, t) && j.tunnels[t].granted + |order| <= j.tunnels[t].requested
    ensures TopUpIds(j, t, order) == order
    ensures var f := Provisioned(j, t, order);
            && f.nodes == Assign(j.nodes, Elements(order), t) && f.rendered == j.rendered && f.pending == j.pending
            && f.busy == j.busy && Serving(f, t) && f.tunnels.Keys == j.tunnels.Keys
  {
    if order == [] { assert Assign(j.nodes, Elements(order), t) == j.nodes; }
  }

  /** Ready for the settling pass: what is missing of the rendered config `r` is free, and all of it alive. */
  ghost predicate Settleable(s: System, t: TunnelId, r: set<NodeId>) {
    && t in s.e.tunnels && t in s.e.pending && t in s.e.rendered && s.e.rendered[t] == r
    && AssignedTo(s.e.nodes, t) <= r <= s.e.nodes.Keys && |r| <= s.e.tunnels[t].requested
    && Free(s.e.nodes) == r - AssignedTo(s.e.nodes, t)
    && forall n :: n in r ==> s.e.nodes[n].state == Alive && Assignable(s.e.nodes[n].protocol)
  }

  /** The pass up to its commit, which hands out what is missing. */
  lemma SettlingCommit(maxMisses: int, s0: System, s: System, t: TunnelId, p: PassId, r: set<NodeId>)
    returns (m: System)
    requires GuardedLeads(maxMisses, s0, s) && Ready(maxMisses, s, t, p) && Settleable(s, t, r)
    ensures GuardedLeads(maxMisses, s0, m)
    ensures m == s.(e := m.e, passes := s.passes[p := Deploying(t, false)], trail := m.trail)
    ensures m.e.nodes == Assign(s.e.nodes, r - AssignedTo(s.e.nodes, t), t) && AssignedTo(m.e.nodes, t) == r
    ensures m.e.rendered == s.e.rendered && m.e.pending == s.e.pending && m.e.busy == s.e.busy + {t}
    ensures Serving(m.e, t) && m.e.tunnels.Keys == s.e.tunnels.Keys
  {
    hide GuardedLeads, Judged, Committed, Exact, StrikesOk, IsRanking, Distinct, Fresh, Extended, AssignedTo, Free,
         Assign;
    var snap := SeqOf(AssignedTo(s.e.nodes, t));
    var order := SeqOf(r - AssignedTo(s.e.nodes, t));
    var results := map n | n in Elements(snap) :: true;
    assert forall n :: n in snap ==> n in Elements(snap);
    var e := Busied(s.e, t);
    FlagsIrrelevant(maxMisses, s.e, e, s.trail);
    Refill(maxMisses, e, t, snap, results, order, r);
    PassCommits(maxMisses, s0, s, t, p, snap, results, order);
    m := CommittedIn(maxMisses, s, t, p, snap, results, order);
    assert s.e.pending + {t} == s.e.pending;
  }

  lemma SettlingPass(maxMisses: int, s0: System, s: System, t: TunnelId, p: PassId, r: set<NodeId>) returns (d: System)
    requires GuardedLeads(maxMisses, s0, s) && Ready(maxMisses, s, t, p) && Settleable(s, t, r)
    ensures GuardedLeads(maxMisses, s0, d) && IdsOk(d) && d.e.tunnels.Keys == s.e.tunnels.Keys
    ensures t !in d.e.pending && d.containers == s.containers && d.issued == s.issued
    ensures d.e.nodes.Keys == s.e.nodes.Keys
    ensures forall n :: n in d.e.nodes && n !in r ==> d.e.nodes[n].assignedTo == s.e.nodes[n].assignedTo
  {
    hide GuardedLeads, Exact, StrikesOk, AssignedTo, Free, Assign, Servable;
    var m := SettlingCommit(maxMisses, s0, s, t, p, r);
    AssignedMeans(s.e.nodes, r - AssignedTo(s.e.nodes, t), t, r);
    d := m.(e := m.e.(pending := m.e.pending - {t}), passes := s.passes[p := Healing(t)]);
    assert m.passes[p := Healing(t)] == s.passes[p := Healing(t)];
    assert Step(maxMisses, m, DeployRead(p)) == Some(d);
    Onward(maxMisses, s0, m, DeployRead(p));
  }

  lemma AssignedMeans(nodes: Nodes, ids: set<NodeId>, t: TunnelId, r: set<NodeId>)
    requires ids <= r <= nodes.Keys && AssignedTo(Assign(nodes, ids, t), t) == r
    requires forall n :: n in r ==> nodes[n].state == Alive && Assignable(nodes[n].protocol)
    ensures var after := Assign(nodes, ids, t);
            && Servable(after, t) == r && after.Keys == nodes.Keys
            && forall n :: n in after && n !in r ==> after[n].assignedTo == nodes[n].assignedTo
  {
    var after := Assign(nodes, ids, t);
    forall n ensures n in Servable(after, t) <==> n in r {
      if n in r { assert n in AssignedTo(after, t); }
      if n in Servable(after, t) { assert n in AssignedTo(after, t); }
    }
  }

  // ----- The sharing -----

  lemma {:induction false} Longest(ids: set<TunnelId>) returns (n: nat)
    ensures forall x :: x in ids ==> |x| <= n
  {
    if ids == {} {
      n := 0;
    } else {
      var x :| x in ids;
      var rest := Longest(ids - {x});
      n := if rest < |x| then |x| else rest;
    }
  }

  lemma FreshId(ids: set<TunnelId>) returns (u: TunnelId)
    ensures u !in ids
  {
    var n := Longest(ids);
    u := seq(n + 1, _ => 'u');
  }

  /** Two tunnels with rows, neither awaiting a redeploy, serve a node both. */
  ghost predicate Shares(s: System, t: TunnelId) {
    && t in s.e.tunnels && t in s.containers && t !in s.e.pending
    && exists u :: u != t && u in s.e.tunnels && u in s.containers && u !in s.e.pending
                   && s.containers[t] * s.containers[u] != {}
  }

  /** A node nobody holds goes to a new tunnel, whose container serves it. */
  lemma GivenAway(maxMisses: int, s0: System, s: System, t: TunnelId, n: NodeId) returns (d: System)
    requires GuardedLeads(maxMisses, s0, s) && IdsOk(s) && t in s.e.tunnels && t !in s.e.pending
    requires t in s.containers && n in s.containers[t] && n in s.e.nodes && s.e.nodes[n].assignedTo.None?
    ensures GuardedLeads(maxMisses, s0, d) && Shares(d, t)
  {
    hide GuardedLeads, Free, AssignedTo, Assign, Recoloured, Fresh, SameAssignments;
    var u := FreshId(s.issued);
    var after := Recoloured(s.e.nodes, {n});
    RecolouredMeans(s.e.nodes, {n}, t);
    OneFree(s.e.nodes, n);
    var m := s.(e := s.e.(nodes := after));
    assert Step(maxMisses, s, NodesChange(after)) == Some(m);
    Onward(maxMisses, s0, s, NodesChange(after));
    var begin := CreateBegin(u, 1, [n]);
    var made := Step(maxMisses, m, begin).value;
    Onward(maxMisses, s0, m, begin);
    Onward(maxMisses, s0, made, CreateFinish(u));
    d := Step(maxMisses, made, CreateFinish(u)).value;
    assert n in Elements([n]);
    assert n in d.containers[t] * d.containers[u];
  }

  lemma OneFree(nodes: Nodes, n: NodeId)
    requires n in nodes && nodes[n].assignedTo.None?
    ensures IsRanking(Recoloured(nodes, {n}), [n])
  {
    assert Free(Recoloured(nodes, {n})) == {n} == Elements([n]);
  }

  /** Tunnel `t`, awaiting nothing else, serves `n`, which its last rendered config does not name. */
  ghost predicate Stray(s: System, t: TunnelId, n: NodeId) {
    && t in s.e.tunnels && t in s.containers && t in s.e.rendered && n in s.containers[t] && n !in s.e.rendered[t]
    && n in AssignedTo(s.e.nodes, t)
  }

  /** From there on: the stray node dies, the tunnel settles on its old config, and another tunnel gets the node. */
  lemma StrayShares(maxMisses: int, s0: System, s: System, t: TunnelId, p: PassId, n: NodeId) returns (d: System)
    requires GuardedLeads(maxMisses, s0, s) && Ready(maxMisses, s, t, p) && RenderedOk(s.e) && Stray(s, t, n)
    ensures GuardedLeads(maxMisses, s0, d) && Shares(d, t)
  {
    var r := s.e.rendered[t];
    hide GuardedLeads, Ready, AssignedTo, Free, Servable, Recoloured, RenderedOk;
    var alone := DeleteOthers(maxMisses, s0, s, t, p);
    var rid := Rid(maxMisses, s0, alone, t, p, r, n);
    var kept := AssignedTo(rid.e.nodes, t);
    Recolour(maxMisses, s0, rid, t, p, r);
    var healthy := rid.(e := rid.e.(nodes := Recoloured(rid.e.nodes, r)));
    LastOneIn(maxMisses, s, rid, healthy, t, p, r);
    var settled := SettlingPass(maxMisses, s0, healthy, t, p, r);
    Unheld(maxMisses, healthy, t, p, r, n);
    d := GivenAway(maxMisses, s0, settled, t, n);
  }

  /** All of the tunnel's nodes outside `r` swapped out, nobody else having any. */
  lemma Rid(maxMisses: int, s0: System, s: System, t: TunnelId, p: PassId, r: set<NodeId>, n: NodeId)
    returns (d: System)
    requires GuardedLeads(maxMisses, s0, s) && Ready(maxMisses, s, t, p) && n in AssignedTo(s.e.nodes, t) - r
    ensures GuardedLeads(maxMisses, s0, d) && Ready(maxMisses, d, t, p) && Stands(s, d, t)
    ensures d.e.tunnels.Keys == s.e.tunnels.Keys && t in d.e.pending
    ensures AssignedTo(d.e.nodes, t) <= r && n !in AssignedTo(d.e.nodes, t)
  {
    hide GuardedLeads, AssignedTo, Free, Servable;
    var bad := AssignedTo(s.e.nodes, t) - r;
    var k := if maxMisses < 1 then 1 else maxMisses;
    Recolour(maxMisses, s0, s, t, p, {});
    var dark := s.(e := s.e.(nodes := Recoloured(s.e.nodes, {})));
    assert AllDead(dark.e.nodes);
    CloseAtFirst(maxMisses, dark, t, bad, k);
    hide Ready, Recoloured, AllDead, Close;
    d := Expel(maxMisses, s0, dark, t, p, bad, k);
  }

  lemma CloseAtFirst(maxMisses: int, s: System, t: TunnelId, bad: set<NodeId>, k: nat)
    requires StrikesOk(maxMisses, s.e, s.trail) && k >= maxMisses
    ensures Close(maxMisses, s.e, t, bad, k)
  {
    PairsMean(s.e.nodes);
    forall n | n in bad && n in AssignedTo(s.e.nodes, t) ensures StrikeCount(s.e, Key(t, n)) >= maxMisses - k {
      assert Key(t, n) in s.trail;
    }
  }

  /** Every node that is assigned at all is assigned to the one tunnel left. */
  lemma OnlyOwner(e: Engine, t: TunnelId)
    requires Exact(e) && e.tunnels.Keys == {t}
    ensures forall n :: n in e.nodes && e.nodes[n].assignedTo.Some? ==> n in AssignedTo(e.nodes, t)
  {
    forall n | n in e.nodes && e.nodes[n].assignedTo.Some? ensures n in AssignedTo(e.nodes, t) {
      assert e.nodes[n].assignedTo.value in e.tunnels.Keys;
    }
  }

  lemma LastOneIn(maxMisses: int, s: System, rid: System, healthy: System, t: TunnelId, p: PassId, r: set<NodeId>)
    requires RenderedOk(s.e) && Stands(s, rid, t) && Stands(rid, healthy, t)
    requires t in s.e.rendered && r == s.e.rendered[t]
    requires Ready(maxMisses, rid, t, p) && rid.e.tunnels.Keys == {t} && t in rid.e.pending
    requires AssignedTo(rid.e.nodes, t) <= r && healthy == rid.(e := rid.e.(nodes := Recoloured(rid.e.nodes, r)))
    ensures Settleable(healthy, t, r)
  {
    hide StrikesOk, IdsOk, Exact;
    var nodes, after := rid.e.nodes, healthy.e.nodes;
    OnlyOwner(rid.e, t);
    assert AssignedTo(after, t) == AssignedTo(nodes, t);
    assert Free(after) == r - AssignedTo(after, t);
  }

  lemma Unheld(maxMisses: int, s: System, t: TunnelId, p: PassId, r: set<NodeId>, n: NodeId)
    requires Ready(maxMisses, s, t, p) && s.e.tunnels.Keys == {t} && n in s.e.nodes && n !in r
    requires AssignedTo(s.e.nodes, t) <= r
    ensures s.e.nodes[n].assignedTo.None?
  {
    hide AssignedTo, StrikesOk;
    OnlyOwner(s.e, t);
  }

  // ----- Exactly when a failed update is harmless -----

  lemma FailedReady(maxMisses: int, s: System, p: PassId, raised: bool, n: NodeId) returns (d: System)
    requires Inv(maxMisses, s) && RenderedOk(s.e)
    requires p in s.passes && s.passes[p].Rolling? && s.passes[p].t in s.e.tunnels
    requires n in s.passes[p].sig && n !in s.e.rendered[s.passes[p].t] && s.passes[p].t in s.e.rendered
    ensures var t := s.passes[p].t;
            var m := PassStep(maxMisses, s, RollOut(p, Failed(Replaced, raised))).value;
            && GuardedLeads(maxMisses, m, d) && Ready(maxMisses, d, t, p) && RenderedOk(d.e) && Stray(d, t, n)
  {
    hide Exact, StrikesOk, CreationsOk, DeploysOk, BuildingOk, AssignedTo, GuardedLeads, RenderedOk;
    var t, sig := s.passes[p].t, s.passes[p].sig;
    RollingServes(maxMisses, s, p);
    hide PassesOk;
    var m := PassStep(maxMisses, s, RollOut(p, Failed(Replaced, raised))).value;
    LeadsHere(maxMisses, m);
    PassEnds(maxMisses, m, m, t, p);
    d := m.(e := m.e.(busy := m.e.busy - {t}), passes := m.passes - {p});
    FlagsIrrelevant(maxMisses, s.e, d.e, s.trail);
    FlagsRendered(s.e, d.e);
  }

  lemma RollingServes(maxMisses: int, s: System, p: PassId)
    requires PassesOk(s) && RenderedOk(s.e) && p in s.passes && s.passes[p].Rolling? && s.passes[p].t in s.e.tunnels
    ensures Serving(s.e, s.passes[p].t) && s.passes[p].t in s.e.rendered
    ensures s.passes[p].sig <= AssignedTo(s.e.nodes, s.passes[p].t)
  {
    assert PassOk(s.e, s.passes[p]);
  }

  lemma FlagsRendered(e: Engine, f: Engine)
    requires f == e.(busy := f.busy) && RenderedOk(e)
    ensures RenderedOk(f)
  {
  }

  /**
    A failed update that leaves its new container running is harmless if and only if what it
    serves is within the last rendered config: then no run makes the tunnel share a node with
    another while neither awaits a redeploy; otherwise some run does.
   */
  lemma FailedUpdateHarmlessIff(maxMisses: int, events: seq<Event>, s: System, p: PassId, raised: bool)
    requires Reached(maxMisses, events, s) && p in s.passes && s.passes[p].Rolling? && s.passes[p].t in s.e.tunnels
    ensures s.passes[p].t in s.e.rendered
    ensures var d := PassStep(maxMisses, s, RollOut(p, Failed(Replaced, raised))).value;
            (forall f :: GuardedLeads(maxMisses, d, f) ==> !Shares(f, s.passes[p].t)) <==>
            s.passes[p].sig <= s.e.rendered[s.passes[p].t]
  {
    var t, sig := s.passes[p].t, s.passes[p].sig;
    var ev := RollOut(p, Failed(Replaced, raised));
    ReachedRendered(maxMisses, events, s);
    assert PassOk(s.e, s.passes[p]);
    var d := PassStep(maxMisses, s, ev).value;
    if sig <= s.e.rendered[t] {
      StepKeeps(maxMisses, s, ev);
      forall f | GuardedLeads(maxMisses, d, f) ensures !Shares(f, t) {
        var later :| GuardedRun(maxMisses, d, later) && Run(maxMisses, d, later) == Some(f);
        RunKeeps(maxMisses, d, later);
        NoneShares(maxMisses, f, t);
      }
    } else {
      var n :| n in sig && n !in s.e.rendered[t];
      var ready := FailedReady(maxMisses, s, p, raised, n);
      var shared := StrayShares(maxMisses, d, ready, t, p, n);
    }
  }

  lemma ReachedRendered(maxMisses: int, events: seq<Event>, s: System)
    requires Reached(maxMisses, events, s)
    ensures Inv(maxMisses, s) && RenderedOk(s.e)
  {
    BootInv(maxMisses);
    assert RenderedOk(BOOT.e);
    RunKeeps(maxMisses, BOOT, events);
    RunRendered(maxMisses, BOOT, events);
  }

  lemma NoneShares(maxMisses: int, f: System, t: TunnelId)
    requires Inv(maxMisses, f)
    ensures !Shares(f, t)
  {
    hide Exact, StrikesOk, CreationsOk, PassesOk, BuildingOk, IdsOk;
    if t in f.e.tunnels && t in f.containers && t !in f.e.pending {
      forall u | u != t && u in f.e.tunnels && u in f.containers && u !in f.e.pending
        ensures f.containers[t] * f.containers[u] == {}
      {
        assert f.containers[t] <= AssignedTo(f.e.nodes, t) && f.containers[u] <= AssignedTo(f.e.nodes, u);
        assert AssignedTo(f.e.nodes, t) !! AssignedTo(f.e.nodes, u);
      }
    }
  }
}
