/**
  The engine's assignment, health and redeploy machine as a step system: health passes of
  many tunnels interleave with creates, deletes, source refreshes and working-set passes.
  A pass is split where the source drops its lock: begin, snapshot, locked commit, deploy
  read, roll-out, self-heal, end. A create is split at the start of its container.
 */
module HealthProtocol {
  import opened Collections
  import opened Wrappers
  import opened EngineStore

  datatype Key = Key(tunnel: TunnelId, node: NodeId)

  /** The store and the scheduler's bookkeeping; `rendered` keeps the node set of a config. */
  datatype Engine = Engine(
    nodes: Nodes,
    tunnels: Tunnels,
    strikes: map<Key, int>,
    rendered: map<TunnelId, set<NodeId>>,
    pending: set<TunnelId>,
    busy: set<TunnelId>
  )

  // ----- What the scheduler's methods compute -----

  /** `_bump_granted`: the row, if any, with the count moved, never below zero, and running. */
  function Bumped(e: Engine, t: TunnelId, delta: int): Engine {
    if t in e.tunnels then
      var row := e.tunnels[t];
      var count := if row.granted + delta < 0 then 0 else row.granted + delta;
      e.(tunnels := e.tunnels[t := row.(granted := count, state := Running)])
    else e
  }

  function StrikeCount(e: Engine, k: Key): int {
    if k in e.strikes then e.strikes[k] else 0
  }

  /** The verdict that makes the count reach the limit. */
  predicate SwapsOut(e: Engine, k: Key, alive: bool, maxMisses: int) {
    !alive && StrikeCount(e, k) + 1 >= maxMisses
  }

  /** One node's verdict: forgive, strike or swap out. */
  function JudgeOne(e: Engine, t: TunnelId, n: NodeId, alive: bool, maxMisses: int): Engine {
    var k := Key(t, n);
    if alive then e.(strikes := e.strikes - {k})
    else if !SwapsOut(e, k, alive, maxMisses) then e.(strikes := e.strikes[k := StrikeCount(e, k) + 1])
    else Bumped(e.(strikes := e.strikes - {k}, nodes := Unassign(e.nodes, n)), t, -1)
  }

  predicate Covers(results: map<NodeId, bool>, snap: seq<NodeId>) {
    forall n :: n in snap ==> n in results
  }

  /** `_apply_health_verdicts` over the snapshot, in order. */
  function Judged(e: Engine, t: TunnelId, snap: seq<NodeId>, results: map<NodeId, bool>, maxMisses: int): Engine
    requires Covers(results, snap)
  {
    if snap == [] then e
    else
      var last := snap[|snap| - 1];
      JudgeOne(Judged(e, t, snap[..|snap| - 1], results, maxMisses), t, last, results[last], maxMisses)
  }

  /** How many of the snapshot are swapped out. */
  function SwapCount(e: Engine, t: TunnelId, snap: seq<NodeId>, results: map<NodeId, bool>, maxMisses: int): nat
    requires Covers(results, snap)
  {
    if snap == [] then 0
    else
      var init, last := snap[..|snap| - 1], snap[|snap| - 1];
      SwapCount(e, t, init, results, maxMisses)
      + (if SwapsOut(Judged(e, t, init, results, maxMisses), Key(t, last), results[last], maxMisses)
         then 1 else 0)
  }

  /** The assigner's order of the free nodes. */
  ghost predicate IsRanking(nodes: Nodes, order: seq<NodeId>) {
    Distinct(order) && Elements(order) == Free(nodes)
  }

  /** The nodes a degraded tunnel is topped up with, best first. */
  function TopUpIds(e: Engine, t: TunnelId, order: seq<NodeId>): seq<NodeId> {
    if t !in e.tunnels || !e.tunnels[t].Degraded() then []
    else
      var room := e.tunnels[t].requested - e.tunnels[t].granted;
      if room < |order| then order[..room] else order
  }

  /** `_after_provision`. */
  function Provisioned(e: Engine, t: TunnelId, order: seq<NodeId>): Engine {
    var added := TopUpIds(e, t, order);
    if added == [] then e
    else Bumped(e.(nodes := Assign(e.nodes, Elements(added), t)), t, |added|)
  }

  predicate Serving(e: Engine, t: TunnelId) {
    t in e.tunnels && e.tunnels[t].state != Starting && e.tunnels[t].state != Stopped
  }

  /** The locked section of a health pass. */
  function Committed(e: Engine, t: TunnelId, snap: seq<NodeId>, results: map<NodeId, bool>,
                     maxMisses: int, order: seq<NodeId>): Engine
    requires Covers(results, snap)
  {
    if !Serving(e, t) then e
    else
      var judged := Judged(e, t, snap, results, maxMisses);
      var filled := Provisioned(judged, t, order);
      if SwapCount(e, t, snap, results, maxMisses) > 0 || TopUpIds(judged, t, order) != []
      then filled.(pending := filled.pending + {t})
      else filled
  }

  /** `forget_tunnel`. */
  function Forgotten(e: Engine, t: TunnelId): Engine {
    e.(strikes := map k | k in e.strikes && k.tunnel != t :: e.strikes[k],
       rendered := e.rendered - {t}, pending := e.pending - {t}, busy := e.busy - {t})
  }

  /** `Assigner.release_tunnel` followed by `store.delete_tunnel`. */
  function Dropped(e: Engine, t: TunnelId): Engine {
    e.(nodes := Release(e.nodes, t), tunnels := e.tunnels - {t})
  }

  // ----- The step system -----

  type PassId = nat

  /** Where a health pass stands. */
  datatype Pass =
    | Begun(t: TunnelId, seenStarting: bool)
    | Probing(t: TunnelId, snap: seq<NodeId>)
    | Deploying(t: TunnelId, force: bool)
    | Rolling(t: TunnelId, sig: set<NodeId>, force: bool)
    | Healing(t: TunnelId)
    | Ending(t: TunnelId)

  /** A create between its saved row and its container: the locals of its handler. */
  datatype Creation = Creation(requested: int, nodes: seq<NodeId>)

  /**
    `containers` are the node sets actually served; `issued` the tunnel ids ever made;
    `trail` is history no step reads: each assigned pair's verdicts since its assignment.
   */
  datatype System = System(
    e: Engine,
    containers: map<TunnelId, set<NodeId>>,
    creating: map<TunnelId, Creation>,
    issued: set<TunnelId>,
    passes: map<PassId, Pass>,
    trail: map<Key, seq<bool>>
  )

  /** What a failed update leaves of the tunnel's container. */
  datatype Left = Kept | Removed | Replaced

  /** How an update ends; a failed one may also raise out of the pass. */
  datatype Update = Rolled | Failed(left: Left, raised: bool)

  /** What `is_running` answers; an error of the container runtime reads as not running. */
  datatype Answer = Unreachable | Up | Down

  datatype Event =
    | NodesChange(after: Nodes)
    | CreateBegin(t: TunnelId, requested: int, order: seq<NodeId>)
    | CreateFinish(t: TunnelId)
    | CreateRollback(t: TunnelId, left: bool)
    | Delete(t: TunnelId, stopped: bool)
    | PassBegin(p: PassId, t: TunnelId, seenStarting: bool)
    | Snapshot(p: PassId, snap: seq<NodeId>)
    | Commit(p: PassId, results: map<NodeId, bool>, order: seq<NodeId>)
    | DeployRead(p: PassId)
    | RollOut(p: PassId, update: Update)
    | Heal(p: PassId, answer: Answer)
    | PassRaises(p: PassId)
    | PassEnd(p: PassId)
    | ContainerDies(t: TunnelId)

  function Pairs(nodes: Nodes): set<Key> {
    set n | n in nodes && nodes[n].assignedTo.Some? :: Key(nodes[n].assignedTo.value, n)
  }

  /** Pairs that stay keep their history, extended by this pass's verdicts. */
  function Extended(trail: map<Key, seq<bool>>, nodes: Nodes, t: TunnelId, snap: seq<NodeId>,
                    results: map<NodeId, bool>): map<Key, seq<bool>>
    requires Covers(results, snap)
  {
    map k | k in Pairs(nodes) && k in trail ::
      if k.tunnel == t && k.node in snap then trail[k] + [results[k.node]] else trail[k]
  }

  /** New pairs start with no history. */
  function Fresh(trail: map<Key, seq<bool>>, nodes: Nodes): map<Key, seq<bool>> {
    map k | k in Pairs(nodes) :: if k in trail then trail[k] else []
  }

  function Move(s: System, p: PassId, next: Pass): System {
    s.(passes := s.passes[p := next])
  }

  /** Where a deploy hands over: self-heal after an ordinary one, the end after a forced one. */
  function AfterDeploy(t: TunnelId, force: bool): Pass {
    if force then Ending(t) else Healing(t)
  }

  /** The containers after a failed update to the nodes `sig`. */
  function LeftOver(containers: map<TunnelId, set<NodeId>>, t: TunnelId, sig: set<NodeId>, left: Left)
    : map<TunnelId, set<NodeId>>
  {
    match left
    case Kept => containers
    case Removed => containers - {t}
    case Replaced => containers[t := sig]
  }

  ghost function PassStep(maxMisses: int, s: System, ev: Event): Option<System>
    requires ev.Snapshot? || ev.Commit? || ev.DeployRead? || ev.RollOut? || ev.Heal? || ev.PassRaises? || ev.PassEnd?
  {
    if ev.p !in s.passes then None
    else
      var e := s.e;
      match (ev, s.passes[ev.p])
      case (Snapshot(p, snap), Begun(t, seenStarting)) =>
        if seenStarting then Some(Move(s, p, Ending(t)))
        else if Distinct(snap) && Elements(snap) == AssignedTo(e.nodes, t)
        then Some(Move(s, p, Probing(t, snap))) else None
      case (Commit(p, results, order), Probing(t, snap)) =>
        if !Covers(results, snap) then None
        else if !Serving(e, t) then Some(Move(s, p, Ending(t)))
        else
          var judged := Judged(e, t, snap, results, maxMisses);
          if !IsRanking(judged.nodes, order) then None
          else
            var after := Committed(e, t, snap, results, maxMisses, order);
            var trail := Fresh(Extended(s.trail, judged.nodes, t, snap, results), after.nodes);
            Some(Move(s.(e := after, trail := trail), p,
                      if t in after.pending then Deploying(t, false) else Healing(t)))
      case (DeployRead(p), Deploying(t, force)) =>
        if !Serving(e, t) then Some(Move(s, p, AfterDeploy(t, force)))
        else
          var sig := Servable(e.nodes, t);
          if !force && t in e.rendered && e.rendered[t] == sig
          then Some(Move(s.(e := e.(pending := e.pending - {t})), p, Healing(t)))
          else Some(Move(s, p, Rolling(t, sig, force)))
      case (RollOut(p, Rolled), Rolling(t, sig, force)) =>
        Some(Move(s.(e := e.(rendered := e.rendered[t := sig], pending := e.pending - {t}),
                     containers := s.containers[t := sig]), p, AfterDeploy(t, force)))
      case (RollOut(p, Failed(left, raised)), Rolling(t, sig, force)) =>
        Some(Move(s.(containers := LeftOver(s.containers, t, sig, left)), p,
                  if raised then Ending(t) else AfterDeploy(t, force)))
      case (Heal(p, answer), Healing(t)) =>
        if t !in e.tunnels || e.tunnels[t].state == Stopped || answer == Unreachable
        then Some(Move(s, p, Ending(t)))
        else if answer == Down then Some(Move(s, p, Deploying(t, true)))
        else if t in s.containers then Some(Move(s, p, Ending(t))) else None
      case (PassRaises(p), pass) => Some(Move(s, p, Ending(pass.t)))
      case (PassEnd(p), Ending(t)) =>
        Some(s.(e := e.(busy := e.busy - {t}), passes := s.passes - {p}))
      case _ => None
  }

  ghost function Step(maxMisses: int, s: System, ev: Event): Option<System> {
    var e := s.e;
    match ev
    case NodesChange(after) =>
      if SameAssignments(e.nodes, after) then Some(s.(e := e.(nodes := after))) else None
    case CreateBegin(t, requested, order) =>
      if t in s.issued || requested < 1 || !IsRanking(e.nodes, order) then None
      else
        var granted := if requested < |order| then order[..requested] else order;
        var nodes := Assign(e.nodes, Elements(granted), t);
        Some(s.(e := e.(nodes := nodes, tunnels := e.tunnels[t := Tunnel(Starting, requested, |granted|)]),
                creating := s.creating[t := Creation(requested, granted)], issued := s.issued + {t},
                trail := Fresh(s.trail, nodes)))
    case CreateFinish(t) =>
      if t !in s.creating then None
      else
        var c := s.creating[t];
        Some(s.(e := e.(tunnels := e.tunnels[t := Tunnel(Running, c.requested, |c.nodes|)],
                        rendered := e.rendered[t := Elements(c.nodes)]),
                containers := s.containers[t := Elements(c.nodes)], creating := s.creating - {t}))
    case CreateRollback(t, left) =>
      if t !in s.creating then None
      else
        var after := Dropped(e, t);
        Some(s.(e := after, creating := s.creating - {t}, trail := Fresh(s.trail, after.nodes),
                containers := if left then s.containers[t := Elements(s.creating[t].nodes)] else s.containers))
    case Delete(t, stopped) =>
      if t !in e.tunnels then None
      else
        var after := Forgotten(Dropped(e, t), t);
        Some(s.(e := after, containers := if stopped then s.containers - {t} else s.containers,
                trail := Fresh(s.trail, after.nodes)))
    case PassBegin(p, t, seenStarting) =>
      if p in s.passes || t !in s.issued || t in e.busy then None
      else Some(s.(e := e.(busy := e.busy + {t}), passes := s.passes[p := Begun(t, seenStarting)]))
    case ContainerDies(t) => Some(s.(containers := s.containers - {t}))
    case _ => PassStep(maxMisses, s, ev)
  }

  ghost function Run(maxMisses: int, s: System, events: seq<Event>): Option<System> {
    if events == [] then Some(s)
    else
      var before := Run(maxMisses, s, events[..|events| - 1]);
      if before.None? then None else Step(maxMisses, before.value, events[|events| - 1])
  }

  const BOOT := System(Engine(map[], map[], map[], map[], {}, {}), map[], map[], {}, map[], map[])

  // ----- The invariant -----

  /** The grant count is the number of nodes assigned, within the request; no node is orphaned. */
  ghost predicate Exact(e: Engine) {
    && (forall t :: t in e.tunnels ==>
          e.tunnels[t].granted == |AssignedTo(e.nodes, t)| <= e.tunnels[t].requested)
    && (forall n :: n in e.nodes && e.nodes[n].assignedTo.Some? ==> e.nodes[n].assignedTo.value in e.tunnels)
  }

  /** A create in flight: unless a delete took its row, nobody has touched what is its own. */
  ghost predicate CreationsOk(s: System) {
    && (forall t :: t in s.creating ==>
          && t !in s.e.rendered && t !in s.containers && t !in s.e.pending
          && |s.creating[t].nodes| <= s.creating[t].requested && s.creating[t].requested >= 1
          && (t in s.e.tunnels ==>
                && s.e.tunnels[t] == Tunnel(Starting, s.creating[t].requested, |s.creating[t].nodes|)
                && Distinct(s.creating[t].nodes) && Elements(s.creating[t].nodes) == AssignedTo(s.e.nodes, t)))
    && (forall t :: t in s.e.tunnels && s.e.tunnels[t].state == Starting ==> t in s.creating)
    && (forall k :: k in s.e.strikes ==> k.tunnel !in s.creating)
  }

  /** What a pass relies on while its tunnel's row exists. */
  ghost predicate PassOk(e: Engine, pass: Pass) {
    pass.t in e.tunnels ==>
      && pass.t in e.busy
      && (pass.Probing? ==> Distinct(pass.snap) && Elements(pass.snap) <= AssignedTo(e.nodes, pass.t))
      && (pass.Rolling? ==> pass.sig <= AssignedTo(e.nodes, pass.t) && e.tunnels[pass.t].state != Starting)
  }

  ghost predicate PassesOk(s: System) {
    && (forall p :: p in s.passes ==> s.passes[p].t in s.issued && PassOk(s.e, s.passes[p]))
    && (forall p, q :: p in s.passes && q in s.passes && p != q && s.passes[p].t == s.passes[q].t ==>
          s.passes[p].t !in s.e.tunnels)
  }

  /** What a tunnel's container serves is within its last rendered config, and that within its nodes unless pending. */
  ghost predicate DeploysOk(s: System) {
    && (forall t :: t in s.e.tunnels && t in s.e.rendered && t !in s.e.pending ==>
          s.e.rendered[t] <= AssignedTo(s.e.nodes, t))
    && (forall t :: t in s.e.tunnels && t in s.containers ==>
          t in s.e.rendered && s.containers[t] <= s.e.rendered[t])
  }

  /** The dead verdicts since the last alive one. */
  function DeadRun(trail: seq<bool>): nat {
    if trail == [] || trail[|trail| - 1] then 0 else 1 + DeadRun(trail[..|trail| - 1])
  }

  /** Strikes are the trailing runs of dead verdicts, of assigned pairs only, under the limit. */
  ghost predicate StrikesOk(maxMisses: int, e: Engine, trail: map<Key, seq<bool>>) {
    && trail.Keys == Pairs(e.nodes)
    && (forall k :: k in e.strikes ==> k in trail && 1 <= e.strikes[k] < maxMisses)
    && (forall k :: k in trail ==> StrikeCount(e, k) == DeadRun(trail[k]))
  }

  ghost predicate IdsOk(s: System) {
    s.e.tunnels.Keys <= s.issued && s.creating.Keys <= s.issued && s.e.rendered.Keys <= s.issued
    && s.e.pending <= s.issued && s.containers.Keys <= s.issued && s.e.busy <= s.issued
  }

  /** A pass of a tunnel whose create is not over has no config on its way out and no node but those granted. */
  ghost predicate BuildingPass(creating: map<TunnelId, Creation>, pass: Pass) {
    pass.t in creating ==>
      && !pass.Rolling?
      && (pass.Probing? ==> Distinct(pass.snap) && Elements(pass.snap) <= Elements(creating[pass.t].nodes))
  }

  ghost predicate BuildingOk(s: System) {
    forall p :: p in s.passes ==> BuildingPass(s.creating, s.passes[p])
  }

  ghost predicate Inv(maxMisses: int, s: System) {
    && IdsOk(s) && Exact(s.e) && CreationsOk(s) && BuildingOk(s) && PassesOk(s) && DeploysOk(s)
    && StrikesOk(maxMisses, s.e, s.trail)
  }

  /** A failed update that leaves the tunnel serving a node its last rendered config does not name. */
  predicate LeavesStray(s: System, ev: Event) {
    && ev.RollOut? && ev.update.Failed? && ev.update.left == Replaced
    && ev.p in s.passes && s.passes[ev.p].Rolling? && s.passes[ev.p].t in s.e.tunnels
    && (s.passes[ev.p].t !in s.e.rendered || !(s.passes[ev.p].sig <= s.e.rendered[s.passes[ev.p].t]))
  }

  /** At most one pass of the tunnel is in flight, and if there is one the tunnel is busy. */
  ghost predicate LonePass(s: System, t: TunnelId) {
    forall p, q :: p in s.passes && q in s.passes && s.passes[p].t == t && s.passes[q].t == t ==>
      p == q && t in s.e.busy
  }

  /**
    A create may finish: its row is still there, or the row it saves back claims no node and
    meets at most one pass, which the busy flag knows of.
   */
  ghost predicate Finishable(s: System, t: TunnelId)
    requires t in s.creating
  {
    t in s.e.tunnels || (s.creating[t].nodes == [] && LonePass(s, t))
  }

  /** A create that finishes after its row was deleted, and cannot do so harmlessly. */
  ghost predicate Revives(s: System, ev: Event) {
    ev.CreateFinish? && ev.t in s.creating && !Finishable(s, ev.t)
  }

  /** The two steps the guarantees exclude: a harmful revival of a deleted row, and a stray container. */
  ghost predicate Guarded(s: System, ev: Event) {
    !Revives(s, ev) && !LeavesStray(s, ev)
  }
}
