/** What every run of the assignment, health and redeploy machine guarantees, and where it stops. */
module HealthTheorems {
  import opened Collections
  import opened Wrappers
  import opened EngineStore
  import opened HealthProtocol
  import opened HealthSafety

  /**
    `s` is what some run from an empty engine leads to, no create finishing on a deleted row
    and no failed update leaving a container that serves beyond the last rendered config.
   */
  ghost predicate Reached(maxMisses: int, events: seq<Event>, s: System) {
    GuardedRun(maxMisses, BOOT, events) && Run(maxMisses, BOOT, events) == Some(s)
  }

  lemma ReachedInv(maxMisses: int, events: seq<Event>, s: System)
    requires Reached(maxMisses, events, s)
    ensures Inv(maxMisses, s)
  {
    BootInv(maxMisses);
    RunKeeps(maxMisses, BOOT, events);
  }

  // ----- Counts and verdicts -----

  /** The stored grant count is the number of nodes assigned, and never above the request. */
  lemma CountsExact(maxMisses: int, events: seq<Event>, s: System, t: TunnelId)
    requires Reached(maxMisses, events, s) && t in s.e.tunnels
    ensures s.e.tunnels[t].granted == |AssignedTo(s.e.nodes, t)| <= s.e.tunnels[t].requested
  {
    ReachedInv(maxMisses, events, s);
  }

  /** The unlocked snapshot of a pass is still assigned whenever the tunnel's row still exists. */
  lemma SnapshotStillAssigned(maxMisses: int, events: seq<Event>, s: System, p: PassId)
    requires Reached(maxMisses, events, s) && p in s.passes && s.passes[p].Probing? && s.passes[p].t in s.e.tunnels
    ensures Distinct(s.passes[p].snap) && Elements(s.passes[p].snap) <= AssignedTo(s.e.nodes, s.passes[p].t)
  {
    ReachedInv(maxMisses, events, s);
    assert PassOk(s.e, s.passes[p]);
  }

  /**
    The locked commit: a node of the snapshot loses its tunnel exactly when its run of dead
    verdicts reaches the limit; every other assignment stays; and the count falls by exactly
    the nodes lost, with nothing for the floor at zero to absorb.
   */
  lemma CommitSwapsExactly(maxMisses: int, events: seq<Event>, s: System, t: TunnelId, p: PassId,
                           results: map<NodeId, bool>, order: seq<NodeId>)
    requires Reached(maxMisses, events, s) && PassStep(maxMisses, s, Commit(p, results, order)).Some?
    requires s.passes[p].t == t && Serving(s.e, t)
    ensures var snap := s.passes[p].snap;
            var j := Judged(s.e, t, snap, results, maxMisses);
            var lost := AssignedTo(s.e.nodes, t) - AssignedTo(j.nodes, t);
            && (forall n :: n in snap ==> Key(t, n) in s.trail)
            && (forall n :: n in lost <==>
                  n in snap && DeadRun(s.trail[Key(t, n)] + [results[n]]) >= (if maxMisses < 1 then 1 else maxMisses))
            && (forall u :: u != t ==> AssignedTo(j.nodes, u) == AssignedTo(s.e.nodes, u))
            && t in j.tunnels && j.tunnels[t].granted == s.e.tunnels[t].granted - |lost|
            && j.tunnels[t].granted == |AssignedTo(j.nodes, t)|
  {
    ReachedInv(maxMisses, events, s);
    hide IdsOk, CreationsOk, DeploysOk, BuildingOk;
    assert PassOk(s.e, s.passes[p]);
    hide PassesOk;
    SwapsAreDeadRuns(maxMisses, s, t, s.passes[p].snap, results);
  }

  lemma SwapsAreDeadRuns(maxMisses: int, s: System, t: TunnelId, snap: seq<NodeId>, results: map<NodeId, bool>)
    requires Exact(s.e) && StrikesOk(maxMisses, s.e, s.trail) && t in s.e.tunnels
    requires Covers(results, snap) && Distinct(snap) && Elements(snap) <= AssignedTo(s.e.nodes, t)
    ensures var j := Judged(s.e, t, snap, results, maxMisses);
            var lost := AssignedTo(s.e.nodes, t) - AssignedTo(j.nodes, t);
            && (forall n :: n in snap ==> Key(t, n) in s.trail)
            && (forall n :: n in lost <==>
                  n in snap && DeadRun(s.trail[Key(t, n)] + [results[n]]) >= (if maxMisses < 1 then 1 else maxMisses))
            && (forall u :: u != t ==> AssignedTo(j.nodes, u) == AssignedTo(s.e.nodes, u))
            && t in j.tunnels && j.tunnels[t].granted == s.e.tunnels[t].granted - |lost|
            && j.tunnels[t].granted == |AssignedTo(j.nodes, t)|
  {
    hide Judged, StrikesOk, AssignedTo, SwapsOut, DeadRun, Exact, Distinct;
    SnapAssigned(s.e, t, snap);
    LostIsSwapped(s.e, t, snap, results, maxMisses);
    StruckRuns(maxMisses, s, t, snap, results);
  }

  lemma SnapAssigned(e: Engine, t: TunnelId, snap: seq<NodeId>)
    requires Elements(snap) <= AssignedTo(e.nodes, t)
    ensures forall n :: n in snap ==> n in AssignedTo(e.nodes, t)
  {
    forall n | n in snap ensures n in AssignedTo(e.nodes, t) { assert n in Elements(snap); }
  }

  lemma LostIsSwapped(e: Engine, t: TunnelId, snap: seq<NodeId>, results: map<NodeId, bool>, maxMisses: int)
    requires Exact(e) && t in e.tunnels && Covers(results, snap) && Distinct(snap)
    requires Elements(snap) <= AssignedTo(e.nodes, t)
    ensures var j := Judged(e, t, snap, results, maxMisses);
            var lost := AssignedTo(e.nodes, t) - AssignedTo(j.nodes, t);
            && lost == SwapSet(e, t, snap, results, maxMisses)
            && (forall u :: u != t ==> AssignedTo(j.nodes, u) == AssignedTo(e.nodes, u))
            && t in j.tunnels && j.tunnels[t].granted == e.tunnels[t].granted - |lost|
            && j.tunnels[t].granted == |AssignedTo(j.nodes, t)|
  {
    hide Judged, StrikesJudged, NodesJudged, SwapsOut;
    assert e.tunnels[t].granted == |AssignedTo(e.nodes, t)|;
    hide Exact, AssignedTo, Distinct;
    SnapAssigned(e, t, snap);
    JudgedExactly(e, t, snap, results, maxMisses);
    var j := Judged(e, t, snap, results, maxMisses);
    var swapped := SwapSet(e, t, snap, results, maxMisses);
    AssignedLess(e, j, t, swapped);
    Remainder(AssignedTo(e.nodes, t), swapped);
  }

  lemma Remainder<T>(all: set<T>, part: set<T>)
    requires part <= all
    ensures all - (all - part) == part && |all - part| == |all| - |part|
  {
    assert all == (all - part) + part;
  }

  /** The verdict that swaps a node out is the one that makes its dead run long enough. */
  lemma StruckRuns(maxMisses: int, s: System, t: TunnelId, snap: seq<NodeId>, results: map<NodeId, bool>)
    requires StrikesOk(maxMisses, s.e, s.trail) && Covers(results, snap)
    requires forall n :: n in snap ==> n in AssignedTo(s.e.nodes, t)
    ensures forall n :: n in snap ==>
              && Key(t, n) in s.trail
              && (SwapsOut(s.e, Key(t, n), results[n], maxMisses) <==>
                    DeadRun(s.trail[Key(t, n)] + [results[n]]) >= (if maxMisses < 1 then 1 else maxMisses))
  {
    PairsMean(s.e.nodes);
    forall n | n in snap
      ensures Key(t, n) in s.trail
      ensures SwapsOut(s.e, Key(t, n), results[n], maxMisses) <==>
              DeadRun(s.trail[Key(t, n)] + [results[n]]) >= (if maxMisses < 1 then 1 else maxMisses)
    {
      assert Key(t, n) in Pairs(s.e.nodes);
      DeadRunExtends(s.trail[Key(t, n)], results[n]);
    }
  }

  /** At rest a strike count is the pair's trailing run of dead verdicts, of an assigned pair, under the limit. */
  lemma StrikesAreDeadRuns(maxMisses: int, events: seq<Event>, s: System, t: TunnelId, n: NodeId)
    requires Reached(maxMisses, events, s)
    ensures n in AssignedTo(s.e.nodes, t) <==> Key(t, n) in s.trail
    ensures Key(t, n) in s.e.strikes ==> Key(t, n) in s.trail && 1 <= s.e.strikes[Key(t, n)] < maxMisses
    ensures Key(t, n) in s.trail ==> StrikeCount(s.e, Key(t, n)) == DeadRun(s.trail[Key(t, n)])
  {
    ReachedInv(maxMisses, events, s);
    PairsMean(s.e.nodes);
  }

  // ----- Deployments -----

  /** A tunnel with a row that awaits no redeploy serves only through nodes assigned to it. */
  lemma ServedWithin(maxMisses: int, events: seq<Event>, s: System, t: TunnelId)
    requires Reached(maxMisses, events, s)
    requires t in s.e.tunnels && t in s.containers && t !in s.e.pending
    ensures s.containers[t] <= AssignedTo(s.e.nodes, t)
  {
    hide AssignedTo;
    ReachedInv(maxMisses, events, s);
    assert s.containers[t] <= s.e.rendered[t] <= AssignedTo(s.e.nodes, t);
  }

  /** Two tunnels with rows, neither awaiting a redeploy, never serve through the same node. */
  lemma ServedApart(maxMisses: int, events: seq<Event>, s: System, t: TunnelId, u: TunnelId)
    requires Reached(maxMisses, events, s) && t != u
    requires t in s.e.tunnels && t in s.containers && t !in s.e.pending
    requires u in s.e.tunnels && u in s.containers && u !in s.e.pending
    ensures s.containers[t] <= AssignedTo(s.e.nodes, t)
    ensures s.containers[t] !! s.containers[u]
  {
    ServedWithin(maxMisses, events, s, t);
    ServedWithin(maxMisses, events, s, u);
    assert AssignedTo(s.e.nodes, t) !! AssignedTo(s.e.nodes, u);
  }

  /** The events that settle a tunnel's pending redeploy. */
  ghost predicate Settles(s: System, ev: Event, t: TunnelId) {
    || (ev.RollOut? && ev.update.Rolled? && ev.p in s.passes && s.passes[ev.p].Rolling? && s.passes[ev.p].t == t)
    || (ev.DeployRead? && ev.p in s.passes && s.passes[ev.p].t == t
        && t in s.e.rendered && s.e.rendered[t] == Servable(s.e.nodes, t))
    || (ev.Delete? && ev.t == t)
  }

  /** A pending redeploy, failed updates included, outlives every step that does not settle it. */
  lemma PendingOutlives(maxMisses: int, s: System, ev: Event, t: TunnelId)
    requires Step(maxMisses, s, ev).Some? && t in s.e.pending && !Settles(s, ev, t)
    ensures t in Step(maxMisses, s, ev).value.e.pending
  {
    if ev.Commit? {
      CommitPending(maxMisses, s, ev, t);
    }
  }

  lemma {:induction false} JudgedPending(e: Engine, t: TunnelId, snap: seq<NodeId>, results: map<NodeId, bool>,
                                         maxMisses: int)
    requires Covers(results, snap)
    ensures Judged(e, t, snap, results, maxMisses).pending == e.pending
  {
    if snap != [] {
      JudgedPending(e, t, snap[..|snap| - 1], results, maxMisses);
    }
  }

  lemma CommitPending(maxMisses: int, s: System, ev: Event, t: TunnelId)
    requires ev.Commit? && PassStep(maxMisses, s, ev).Some?
    ensures s.e.pending <= PassStep(maxMisses, s, ev).value.e.pending
  {
    var pass := s.passes[ev.p];
    if Serving(s.e, pass.t) {
      JudgedPending(s.e, pass.t, pass.snap, ev.results, maxMisses);
      hide Judged;
    }
  }

  /** Nothing in the run settles tunnel `t`. */
  ghost predicate Unsettled(maxMisses: int, s: System, events: seq<Event>, t: TunnelId) {
    events != [] ==>
      var init := events[..|events| - 1];
      && Unsettled(maxMisses, s, init, t)
      && (Run(maxMisses, s, init).Some? ==> !Settles(Run(maxMisses, s, init).value, events[|events| - 1], t))
  }

  /** A tunnel marked for redeploy stays marked in every run that does not settle it. */
  lemma {:induction false} PendingUntilSettled(maxMisses: int, s: System, events: seq<Event>, t: TunnelId)
    requires Run(maxMisses, s, events).Some? && t in s.e.pending && Unsettled(maxMisses, s, events, t)
    ensures t in Run(maxMisses, s, events).value.e.pending
  {
    if events != [] {
      var init := events[..|events| - 1];
      PendingUntilSettled(maxMisses, s, init, t);
      PendingOutlives(maxMisses, Run(maxMisses, s, init).value, events[|events| - 1], t);
    }
  }

  predicate OfPass(ev: Event, p: PassId) {
    (ev.PassBegin? || ev.Snapshot? || ev.Commit? || ev.DeployRead? || ev.RollOut? || ev.Heal?
     || ev.PassRaises? || ev.PassEnd?) && ev.p == p
  }

  /** The config of tunnel `t` on its way out was read at step `k`, the pass's latest. */
  ghost predicate ReadAt(maxMisses: int, s: System, events: seq<Event>, k: nat, p: PassId, t: TunnelId,
                         sig: set<NodeId>) {
    && k < |events| && events[k] == DeployRead(p)
    && (forall i :: k < i < |events| ==> !OfPass(events[i], p))
    && Run(maxMisses, s, events[..k]).Some?
    && Servable(Run(maxMisses, s, events[..k]).value.e.nodes, t) == sig
  }

  lemma PassUntouched(maxMisses: int, s: System, ev: Event, p: PassId)
    requires Step(maxMisses, s, ev).Some? && !OfPass(ev, p)
    ensures var d := Step(maxMisses, s, ev).value;
            (p in d.passes <==> p in s.passes) && (p in s.passes ==> d.passes[p] == s.passes[p])
  {
    if ev.Snapshot? || ev.Commit? || ev.DeployRead? || ev.RollOut? || ev.Heal? || ev.PassRaises? || ev.PassEnd? {
      OnlyItsPass(maxMisses, s, ev, p);
    }
  }

  lemma OnlyItsPass(maxMisses: int, s: System, ev: Event, p: PassId)
    requires ev.Snapshot? || ev.Commit? || ev.DeployRead? || ev.RollOut? || ev.Heal? || ev.PassRaises? || ev.PassEnd?
    requires PassStep(maxMisses, s, ev).Some? && ev.p != p
    ensures var d := PassStep(maxMisses, s, ev).value;
            (p in d.passes <==> p in s.passes) && (p in s.passes ==> d.passes[p] == s.passes[p])
  {
  }

  lemma OnlyReadsRoll(maxMisses: int, s: System, ev: Event, p: PassId)
    requires Step(maxMisses, s, ev).Some? && OfPass(ev, p)
    requires var d := Step(maxMisses, s, ev).value; p in d.passes && d.passes[p].Rolling?
    ensures ev == DeployRead(p)
    ensures var pass := Step(maxMisses, s, ev).value.passes[p]; pass.sig == Servable(s.e.nodes, pass.t)
  {
  }

  lemma {:induction false} RollingWasRead(maxMisses: int, s: System, events: seq<Event>, p: PassId)
    requires Run(maxMisses, s, events).Some? && (p in s.passes ==> !s.passes[p].Rolling?)
    requires var d := Run(maxMisses, s, events).value; p in d.passes && d.passes[p].Rolling?
    ensures var pass := Run(maxMisses, s, events).value.passes[p];
            exists k: nat :: ReadAt(maxMisses, s, events, k, p, pass.t, pass.sig)
  {
    var n := |events| - 1;
    var before := Run(maxMisses, s, events[..n]).value;
    var pass := Run(maxMisses, s, events).value.passes[p];
    hide Step;
    if OfPass(events[n], p) {
      OnlyReadsRoll(maxMisses, before, events[n], p);
      assert ReadAt(maxMisses, s, events, n, p, pass.t, pass.sig);
    } else {
      PassUntouched(maxMisses, before, events[n], p);
      RollingWasRead(maxMisses, s, events[..n], p);
      var k: nat :| ReadAt(maxMisses, s, events[..n], k, p, pass.t, pass.sig);
      assert events[..n][..k] == events[..k];
      assert forall i :: k < i < n ==> events[..n][i] == events[i];
      assert ReadAt(maxMisses, s, events, k, p, pass.t, pass.sig);
    }
  }

  /**
    A successful update serves exactly the alive, dialable nodes the pass read as assigned to
    the tunnel, settles the tunnel, and is within its assigned nodes still.
   */
  lemma RollOutServesWhatWasRead(maxMisses: int, events: seq<Event>, s: System, t: TunnelId, p: PassId)
    requires Reached(maxMisses, events, s) && t in s.e.tunnels
    requires p in s.passes && s.passes[p].Rolling? && s.passes[p].t == t
    ensures PassStep(maxMisses, s, RollOut(p, Rolled)).Some?
    ensures var d := PassStep(maxMisses, s, RollOut(p, Rolled)).value;
            && t !in d.e.pending && t in d.containers && d.containers[t] <= AssignedTo(d.e.nodes, t)
            && t in d.e.rendered && d.e.rendered[t] == d.containers[t]
            && exists k: nat :: ReadAt(maxMisses, BOOT, events, k, p, t, d.containers[t])
  {
    ReachedInv(maxMisses, events, s);
    assert PassOk(s.e, s.passes[p]);
    RollingWasRead(maxMisses, BOOT, events, p);
  }

  // ----- Where the guarantees stop -----

  /** A row saved back with nodes claims what it has not got. */
  lemma ClaimsTooMuch(maxMisses: int, s: System, t: TunnelId)
    requires Inv(maxMisses, s) && t in s.creating && t !in s.e.tunnels && s.creating[t].nodes != []
    ensures !Exact(Step(maxMisses, s, CreateFinish(t)).value.e)
  {
    var d := Step(maxMisses, s, CreateFinish(t)).value;
    assert AssignedTo(s.e.nodes, t) == {} == AssignedTo(d.e.nodes, t);
    assert d.e.tunnels[t].granted == |s.creating[t].nodes|;
  }

  /**
    Right after a create finishes the counts are exact if and only if its row was still there,
    or it had been granted no node: the handler saves its stale row without looking. Whether
    they stay so is another matter.
   */
  lemma FinishExactIff(maxMisses: int, events: seq<Event>, s: System, t: TunnelId)
    requires Reached(maxMisses, events, s) && t in s.creating
    ensures Exact(Step(maxMisses, s, CreateFinish(t)).value.e) <==> t in s.e.tunnels || s.creating[t].nodes == []
  {
    hide Exact;
    ReachedInv(maxMisses, events, s);
    if t in s.e.tunnels {
      StepKeeps(maxMisses, s, CreateFinish(t));
    } else if s.creating[t].nodes == [] {
      RevivedRows(maxMisses, s, t);
    } else {
      ClaimsTooMuch(maxMisses, s, t);
    }
  }

  /**
    A successful update leaves the tunnel serving only nodes assigned to it if and only if the
    row is still there, or there was nothing to serve: a delete during the update leaves the
    new container behind.
   */
  lemma RollOutWithinIff(maxMisses: int, events: seq<Event>, s: System, p: PassId)
    requires Reached(maxMisses, events, s) && p in s.passes && s.passes[p].Rolling?
    ensures var t := s.passes[p].t;
            var d := PassStep(maxMisses, s, RollOut(p, Rolled)).value;
            && t in d.containers
            && (d.containers[t] <= AssignedTo(d.e.nodes, t) <==> t in s.e.tunnels || s.passes[p].sig == {})
  {
    ReachedInv(maxMisses, events, s);
    assert PassOk(s.e, s.passes[p]);
    var t := s.passes[p].t;
    if t !in s.e.tunnels {
      assert AssignedTo(s.e.nodes, t) == {};
    }
  }
}
