/**
  A health pass as the program runs it, among everything else that runs: between its critical
  sections anybody may take any number of steps. Every execution is a run of the machine.
 */
module HealthPass {
  import opened Collections
  import opened Wrappers
  import opened EngineStore
  import opened HealthProtocol
  import opened EngineRuntime
  import Evidence

  /** Some run leads from one state of the machine to the other. */
  ghost predicate Leads(maxMisses: int, s: System, d: System) {
    exists events :: Run(maxMisses, s, events) == Some(d)
  }

  lemma LeadsSame(maxMisses: int, s: System)
    ensures Leads(maxMisses, s, s)
  {
    assert Run(maxMisses, s, []) == Some(s);
  }

  lemma LeadsStep(maxMisses: int, s: System, m: System, ev: Event)
    requires Leads(maxMisses, s, m) && Step(maxMisses, m, ev).Some?
    ensures Leads(maxMisses, s, Step(maxMisses, m, ev).value)
  {
    var events :| Run(maxMisses, s, events) == Some(m);
    assert (events + [ev])[..|events|] == events;
    assert Run(maxMisses, s, events + [ev]) == Step(maxMisses, m, ev);
  }

  /** What the container runtime answers to `is_running`: not at all, with an error, or with the truth. */
  datatype Inspection = NoRuntime | Errs | Truthful

  /** How a deployment goes once its nodes are read: no config renders from them, or an update is tried. */
  datatype Deployment = Unrendered | Updated(update: Update)

  predicate Raises(d: Deployment) { d.Unrendered? || (d.update.Failed? && d.update.raised) }

  /** Where the counts of a pass come from: nowhere, or its locked section. */
  datatype Report =
    | NoCommit
    | AtCommit(before: System, snap: seq<NodeId>, results: map<NodeId, bool>, order: seq<NodeId>)

  /** The counts a pass returns are the swaps and grants of its locked section, at a state on its way. */
  ghost predicate Counts(maxMisses: int, start: System, t: TunnelId, report: Report, swapped: nat, added: nat) {
    match report
    case NoCommit => swapped == 0 && added == 0
    case AtCommit(m, snap, results, order) =>
      && Leads(maxMisses, start, m) && Serving(m.e, t) && Covers(results, snap)
      && swapped == SwapCount(m.e, t, snap, results, maxMisses)
      && added == |TopUpIds(Judged(m.e, t, snap, results, maxMisses), t, order)|
  }

  class Worker {
    const engine: EngineRuntime.Engine
    var containers: map<TunnelId, set<NodeId>>
    ghost var world: System

    ghost predicate Valid()
      reads this, engine, engine.store
    {
      world.e == engine.View() && world.containers == containers
    }

    constructor (engine: EngineRuntime.Engine)
      ensures this.engine == engine && containers == map[] && world.containers == map[]
      ensures world.e == engine.View() && Valid()
    {
      this.engine := engine;
      containers := map[];
      world := System(engine.View(), map[], map[], {}, map[], map[]);
    }

    /** The machine has run from `before` to here, with pass `p` now standing at `pass`. */
    ghost predicate At(before: System, p: PassId, pass: Pass)
      reads this, engine, engine.store
    {
      Valid() && Leads(engine.settings.maxMisses, before, world) && p in world.passes && world.passes[p] == pass
    }

    /** Everybody but pass `p` takes any number of steps. */
    method Wait(ghost before: System, ghost p: PassId, ghost pass: Pass)
      requires At(before, p, pass)
      modifies this`containers, this`world, engine, engine.store
      ensures At(before, p, pass)
    {
    }

    /** Step `ev` of pass `p` has been taken by the code just run. */
    ghost method Took(before: System, ev: Event, p: PassId, next: Pass)
      requires Leads(engine.settings.maxMisses, before, world)
      requires Step(engine.settings.maxMisses, world, ev).Some?
      requires var d := Step(engine.settings.maxMisses, world, ev).value;
               d.e == engine.View() && d.containers == containers && p in d.passes && d.passes[p] == next
      modifies this`world
      ensures At(before, p, next) && world == Step(engine.settings.maxMisses, old(world), ev).value
    {
      LeadsStep(engine.settings.maxMisses, before, world, ev);
      world := Step(engine.settings.maxMisses, world, ev).value;
    }

    /** The snapshot: the ids assigned to the tunnel, in some order. */
    method AssignedIds(t: TunnelId) returns (snap: seq<NodeId>)
      ensures Distinct(snap) && Elements(snap) == AssignedTo(engine.store.nodes, t)
    {
      snap := [];
      var left := AssignedTo(engine.store.nodes, t);
      while left != {}
        invariant left <= AssignedTo(engine.store.nodes, t)
        invariant Distinct(snap) && Elements(snap) == AssignedTo(engine.store.nodes, t) - left
        decreases |left|
      {
        var n :| n in left;
        assert n !in Elements(snap);
        assert Elements(snap + [n]) == Elements(snap) + {n};
        snap := snap + [n];
        left := left - {n};
      }
    }

    /**
      `health_check`: a pass already in flight makes another a no-op. When it `raised`, its
      caller gets the exception in place of the counts.
     */
    method HealthCheck(t: TunnelId, seenStarting: bool, probe: Option<NodeId -> Evidence.ProbeResult>,
                       mode: Evidence.Mode, deploy: bool -> Deployment, inspection: Inspection,
                       now: real, clock: Scoring.Clock, root: real -> real, ghost p: PassId)
      returns (swapped: nat, added: nat, raised: bool, ghost report: Report)
      requires Valid() && p !in world.passes && t in world.issued
      modifies this`containers, this`world, engine, engine.store
      ensures Valid() && Leads(engine.settings.maxMisses, old(world), world)
      ensures t in old(engine.busy) ==> world == old(world) && report.NoCommit? && !raised
      ensures t !in old(engine.busy) ==> p !in world.passes
      ensures Counts(engine.settings.maxMisses, old(world), t, report, swapped, added)
      ensures raised ==> probe.None? || Raises(deploy(false)) || Raises(deploy(true))
    {
      hide Committed, Judged, Leads;
      ghost var before := world;
      LeadsSame(engine.settings.maxMisses, world);
      var entered := engine.Begin(t);
      if !entered {
        assert engine.busy == old(engine.busy);
        return 0, 0, false, NoCommit;
      }
      Took(before, PassBegin(p, t, seenStarting), p, Begun(t, seenStarting));
      Wait(before, p, Begun(t, seenStarting));
      swapped, added, raised, report :=
        RunHealthPass(t, seenStarting, probe, mode, deploy, inspection, now, clock, root, before, p);
      hide Counts;
      Leave(t, before, p);
    }

    /** The finally part. */
    method Leave(t: TunnelId, ghost before: System, ghost p: PassId)
      requires At(before, p, Ending(t))
      modifies this`world, engine`busy
      ensures Valid() && Leads(engine.settings.maxMisses, before, world) && p !in world.passes
    {
      hide Committed, Judged, Leads;
      engine.End(t);
      Happened(before, PassEnd(p));
    }

    /** `_run_health_pass`; an exception of the probes, of rendering or of an update also ends it. */
    method RunHealthPass(t: TunnelId, seenStarting: bool, probe: Option<NodeId -> Evidence.ProbeResult>,
                         mode: Evidence.Mode, deploy: bool -> Deployment, inspection: Inspection,
                         now: real, clock: Scoring.Clock, root: real -> real, ghost before: System, ghost p: PassId)
      returns (swapped: nat, added: nat, raised: bool, ghost report: Report)
      requires At(before, p, Begun(t, seenStarting))
      modifies this`containers, this`world, engine, engine.store
      ensures At(before, p, Ending(t))
      ensures Counts(engine.settings.maxMisses, before, t, report, swapped, added)
      ensures raised ==> probe.None? || Raises(deploy(false)) || Raises(deploy(true))
    {
      swapped, added, raised, report := 0, 0, false, NoCommit;
      var snap := AssignedIds(t);
      if seenStarting {
        Took(before, Snapshot(p, snap), p, Ending(t));
        Wait(before, p, Ending(t));
        return;
      }
      Took(before, Snapshot(p, snap), p, Probing(t, snap));
      Wait(before, p, Probing(t, snap));
      var results := map[];
      if snap != [] {
        if probe.None? {
          Raise(t, before, p, Probing(t, snap));
          return 0, 0, true, NoCommit;
        }
        RecordVerdicts(snap, probe.value, mode, now, root, before, p, Probing(t, snap));
        Wait(before, p, Probing(t, snap));
        results := map n | n in Elements(snap) :: probe.value(n).alive;
        forall n | n in snap ensures n in results { assert n in Elements(snap); }
      }
      var pending;
      swapped, added, pending, report := CommitPass(t, snap, results, clock, root, before, p);
      if pending.None? { return; }
      hide Counts;
      if pending.value {
        var rolled;
        rolled, raised := Redeploy(t, false, deploy, before, p);
        if raised { return; }
      }
      var healed;
      healed, raised := SelfHeal(t, deploy, inspection, before, p);
    }

    /** An exception on its way to the finally part. */
    method Raise(t: TunnelId, ghost before: System, ghost p: PassId, ghost pass: Pass)
      requires At(before, p, pass) && pass.t == t
      modifies this`containers, this`world, engine, engine.store
      ensures At(before, p, Ending(t))
    {
      Took(before, PassRaises(p), p, Ending(t));
      Wait(before, p, Ending(t));
    }

    /** The probes' verdicts, written to the rows before the lock is taken. */
    method RecordVerdicts(snap: seq<NodeId>, probe: NodeId -> Evidence.ProbeResult, mode: Evidence.Mode, now: real,
                          root: real -> real, ghost before: System, ghost p: PassId, ghost pass: Pass)
      requires At(before, p, pass)
      modifies this`world, engine.store`nodes
      ensures At(before, p, pass)
      ensures engine.store.nodes ==
              Evidence.JudgeAll(old(engine.store.nodes),
                                seq(|snap|, i requires 0 <= i < |snap| => (snap[i], probe(snap[i]))),
                                mode, now, root)
    {
      var verdicts := seq(|snap|, i requires 0 <= i < |snap| => (snap[i], probe(snap[i])));
      Evidence.JudgingAssignsNothing(engine.store.nodes, verdicts, mode, now, root);
      Evidence.ApplyProbeResults(engine.store, verdicts, mode, now, root);
      Took(before, NodesChange(engine.store.nodes), p, pass);
    }

    /** The locked section; `pending` is `None` when the pass is over. */
    method CommitPass(t: TunnelId, snap: seq<NodeId>, results: map<NodeId, bool>, clock: Scoring.Clock,
                      root: real -> real, ghost before: System, ghost p: PassId)
      returns (swapped: nat, added: nat, pending: Option<bool>, ghost report: Report)
      requires At(before, p, Probing(t, snap)) && Covers(results, snap)
      modifies this`containers, this`world, engine, engine.store
      ensures At(before, p,
                 if pending.None? then Ending(t) else if pending.value then Deploying(t, false) else Healing(t))
      ensures Counts(engine.settings.maxMisses, before, t, report, swapped, added)
    {
      ghost var start := world;
      var outcome; ghost var ranking;
      outcome, ranking := engine.Commit(t, snap, results, clock, root);
      ghost var ev := Event.Commit(p, results, ranking.Order());
      if outcome.None? {
        Took(before, ev, p, Ending(t));
        Wait(before, p, Ending(t));
        return 0, 0, None, NoCommit;
      }
      swapped, added, pending := outcome.value.0, outcome.value.1, Some(outcome.value.2);
      report := AtCommit(start, snap, results, ranking.Order());
      ghost var next := if pending.value then Deploying(t, false) else Healing(t);
      Took(before, ev, p, next);
      Wait(before, p, next);
    }

    /** `_redeploy`: read, update without any lock, record; whether a new container was rolled. */
    method Redeploy(t: TunnelId, force: bool, deploy: bool -> Deployment, ghost before: System, ghost p: PassId)
      returns (rolled: bool, raised: bool)
      requires At(before, p, Deploying(t, force))
      modifies this`containers, this`world, engine, engine.store
      ensures At(before, p, if raised then Ending(t) else AfterDeploy(t, force))
      ensures rolled ==> !raised && deploy(force) == Updated(Rolled)
      ensures raised ==> Raises(deploy(force))
    {
      ghost var start := Deploying(t, force);
      var plan := engine.PlanRedeploy(t, force);
      if plan.None? {
        Took(before, DeployRead(p), p, AfterDeploy(t, force));
        Wait(before, p, AfterDeploy(t, force));
        return false, false;
      }
      var signature := plan.value;
      Took(before, DeployRead(p), p, Rolling(t, signature, force));
      Wait(before, p, Rolling(t, signature, force));
      if deploy(force).Unrendered? {
        Raise(t, before, p, Rolling(t, signature, force));
        return false, true;
      }
      rolled, raised := RollOutPlan(t, signature, force, deploy(force).update, before, p);
      Wait(before, p, if raised then Ending(t) else AfterDeploy(t, force));
    }

    /** What the update answered, recorded; a failed one may have left the old container, none, or the new one. */
    method RollOutPlan(t: TunnelId, signature: set<NodeId>, force: bool, answer: Update,
                       ghost before: System, ghost p: PassId)
      returns (rolled: bool, raised: bool)
      requires At(before, p, Rolling(t, signature, force))
      modifies this`containers, this`world, engine`rendered, engine`pending
      ensures At(before, p, if raised then Ending(t) else AfterDeploy(t, force))
      ensures rolled == answer.Rolled? && raised == (answer.Failed? && answer.raised)
      ensures containers ==
              if answer.Rolled? then old(containers)[t := signature]
              else LeftOver(old(containers), t, signature, answer.left)
    {
      hide Leads, Committed, Judged;
      raised := answer.Failed? && answer.raised;
      match answer {
        case Rolled =>
          containers := containers[t := signature];
        case Failed(Kept, _) =>
        case Failed(Removed, _) =>
          containers := containers - {t};
        case Failed(Replaced, _) =>
          containers := containers[t := signature];
      }
      rolled := engine.FinishRedeploy(t, signature, answer.Rolled?);
      Took(before, RollOut(p, answer), p, if raised then Ending(t) else AfterDeploy(t, force));
    }

    /**
      `_self_heal`: a live row is deployed again when its container is not running, or the
      runtime errs on the question; never when the runtime cannot be reached.
     */
    method SelfHeal(t: TunnelId, deploy: bool -> Deployment, inspection: Inspection, ghost before: System,
                    ghost p: PassId)
      returns (healed: bool, raised: bool)
      requires At(before, p, Healing(t))
      modifies this`containers, this`world, engine, engine.store
      ensures At(before, p, Ending(t))
      ensures healed ==>
                && t in old(engine.store.tunnels) && old(engine.store.tunnels)[t].state != Stopped
                && (inspection.Errs? || (inspection.Truthful? && t !in old(containers)))
                && deploy(true) == Updated(Rolled)
      ensures raised ==> Raises(deploy(true))
    {
      healed, raised := false, false;
      var tunnel := engine.store.GetTunnel(t);
      var answer :=
        if inspection.NoRuntime? then Unreachable
        else if inspection.Truthful? && t in containers then Up else Down;
      if tunnel.None? || tunnel.value.state == Stopped || answer != Down {
        Took(before, Event.Heal(p, answer), p, Ending(t));
        Wait(before, p, Ending(t));
        return;
      }
      Took(before, Event.Heal(p, answer), p, Deploying(t, true));
      Wait(before, p, Deploying(t, true));
      healed, raised := Redeploy(t, true, deploy, before, p);
    }

    // ----- The tunnel handlers -----

    /** The machine has run from `before` to here, with the create of `t` still in flight. */
    ghost predicate Building(before: System, t: TunnelId, c: Creation)
      reads this, engine, engine.store
    {
      Valid() && Leads(engine.settings.maxMisses, before, world) && t in world.creating && world.creating[t] == c
    }

    /** Everybody else takes any number of steps, a delete of the very tunnel included. */
    method WaitBuilding(ghost before: System, t: TunnelId, ghost c: Creation)
      requires Building(before, t, c)
      modifies this`containers, this`world, engine, engine.store
      ensures Building(before, t, c)
    {
    }

    /** A step of a handler has been taken by the code just run. */
    ghost method Happened(before: System, ev: Event)
      requires Leads(engine.settings.maxMisses, before, world)
      requires Step(engine.settings.maxMisses, world, ev).Some?
      requires var d := Step(engine.settings.maxMisses, world, ev).value;
               d.e == engine.View() && d.containers == containers
      modifies this`world
      ensures Valid() && Leads(engine.settings.maxMisses, before, world)
      ensures world == Step(engine.settings.maxMisses, old(world), ev).value
    {
      LeadsStep(engine.settings.maxMisses, before, world, ev);
      world := Step(engine.settings.maxMisses, world, ev).value;
    }

    /**
      POST /tunnels under a new id: nodes granted and the row saved, the container started with
      no lock held, then the row saved again; or everything taken back, but for a container
      that a failed start may have left. `false` is a 400, 502 or 503; no free port is a 503
      before anything is granted.
     */
    method CreateTunnel(t: TunnelId, requested: int, portFree: bool, started: bool, left: bool,
                        clock: Scoring.Clock, root: real -> real)
      returns (created: bool)
      requires Valid() && t !in world.issued
      modifies this`containers, this`world, engine, engine.store
      ensures Valid() && Leads(engine.settings.maxMisses, old(world), world)
      ensures created == (requested >= 1 && portFree && started)
      ensures requested < 1 || !portFree ==> world == old(world)
      ensures created ==> t in world.e.tunnels && t in containers && world.e.tunnels[t].state == Running
      ensures requested >= 1 && portFree && !started ==> t !in world.e.tunnels && AssignedTo(world.e.nodes, t) == {}
    {
      hide Leads, PassStep, Committed, Judged, Fresh, IsRanking;
      ghost var before := world;
      LeadsSame(engine.settings.maxMisses, world);
      if requested < 1 || !portFree { return false; }
      var granted; ghost var ranking;
      granted, ranking := engine.BeginCreate(t, requested, clock, root);
      Happened(before, CreateBegin(t, requested, ranking.Order()));
      WaitBuilding(before, t, Creation(requested, granted));
      created := started;
      if started {
        FinishBuilding(before, t, requested, granted);
      } else {
        RollBack(before, t, requested, granted, left);
      }
    }

    /** The container is up: the row is saved again and its config recorded. */
    method FinishBuilding(ghost before: System, t: TunnelId, requested: int, granted: seq<NodeId>)
      requires Building(before, t, Creation(requested, granted))
      modifies this`containers, this`world, engine, engine.store
      ensures Valid() && Leads(engine.settings.maxMisses, before, world)
      ensures t in containers && t in world.e.tunnels && world.e.tunnels[t].state == Running
    {
      hide Leads, PassStep;
      containers := containers[t := Elements(granted)];
      engine.FinishCreate(t, requested, granted);
      Happened(before, CreateFinish(t));
    }

    /** Rendering or starting failed: nodes and row are taken back; a container may be left behind. */
    method RollBack(ghost before: System, t: TunnelId, ghost requested: int, granted: seq<NodeId>, left: bool)
      requires Building(before, t, Creation(requested, granted))
      modifies this`containers, this`world, engine, engine.store
      ensures Valid() && Leads(engine.settings.maxMisses, before, world)
      ensures t !in world.e.tunnels && AssignedTo(world.e.nodes, t) == {}
    {
      hide Leads, PassStep;
      engine.DropTunnel(t);
      if left { containers := containers[t := Elements(granted)]; }
      Happened(before, CreateRollback(t, left));
    }

    /** DELETE /tunnels/<id>: the container stopped if the runtime answers, then the row and all that is kept of it. */
    method DeleteTunnel(t: TunnelId, stopped: bool) returns (found: bool)
      requires Valid()
      modifies this`containers, this`world, engine, engine.store
      ensures Valid() && Leads(engine.settings.maxMisses, old(world), world)
      ensures found == (t in old(engine.store.tunnels))
      ensures !found ==> world == old(world)
      ensures found ==> t !in world.e.tunnels && AssignedTo(world.e.nodes, t) == {} && t !in world.e.pending
                        && (stopped ==> t !in containers)
    {
      ghost var before := world;
      LeadsSame(engine.settings.maxMisses, world);
      found := engine.DeleteTunnel(t);
      if found {
        if stopped { containers := containers - {t}; }
        Happened(before, Delete(t, stopped));
      }
    }
  }
}
