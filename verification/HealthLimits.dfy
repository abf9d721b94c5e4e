/**
  Runs of the engine past its guarantees: a delete overtakes a create (with nodes granted, and
  with none but a pass in flight), a delete overtakes a redeploy, and a failed redeploy leaves
  its new container running.
 */
module HealthLimits {
  import opened Collections
  import opened Wrappers
  import opened EngineStore
  import opened HealthProtocol
  import opened HealthSafety
  import opened HealthTheorems
  import HealthRevival
  import HealthStray

  /** Some run from an empty engine ends in `s`. */
  ghost predicate Possible(s: System) {
    exists events :: Run(1, BOOT, events) == Some(s)
  }

  ghost predicate PossibleGuarded(s: System) {
    exists events :: Reached(1, events, s)
  }

  lemma Start()
    ensures Possible(BOOT) && PossibleGuarded(BOOT)
  {
    assert Run(1, BOOT, []) == Some(BOOT);
    assert Reached(1, [], BOOT);
  }

  /** One-entry maps and one-element sets, written out and taken back. */
  lemma One<K, V>(k: K, v: V, w: V)
    ensures map[k := v][k := w] == map[k := w] && map[][k := v] == map[k := v]
    ensures map[k := v] - {k} == map[] && var none: map<K, V> := map[]; none - {k} == none
  {
  }

  lemma OneOf<T>(x: T)
    ensures {} + {x} == {x} && {x} - {x} == {} && var none: set<T> := {}; none - {x} == none
  {
  }

  lemma Onward(s: System, ev: Event)
    requires Possible(s) && Step(1, s, ev).Some?
    ensures Possible(Step(1, s, ev).value)
  {
    var events :| Run(1, BOOT, events) == Some(s);
    assert (events + [ev])[..|events|] == events;
    assert Run(1, BOOT, events + [ev]) == Step(1, s, ev);
  }

  lemma OnwardGuarded(s: System, ev: Event)
    requires PossibleGuarded(s) && Step(1, s, ev).Some? && Guarded(s, ev)
    ensures PossibleGuarded(Step(1, s, ev).value)
  {
    var events :| Reached(1, events, s);
    assert (events + [ev])[..|events|] == events;
    assert Reached(1, events + [ev], Step(1, s, ev).value);
  }

  const ROW := Node("ss://", Ss, "a", 0.0, Alive, None, None, None, None, 0, 0, None, None, None, None)

  /** One alive node nobody holds. */
  function OneNode(owner: Option<TunnelId>): Nodes { map["n" := ROW.(assignedTo := owner)] }

  lemma OneNodeFacts()
    ensures IsRanking(OneNode(None), ["n"])
    ensures forall t :: Assign(OneNode(None), Elements(["n"]), t) == OneNode(Some(t))
    ensures forall t :: Release(OneNode(Some(t)), t) == OneNode(None)
    ensures forall t :: AssignedTo(OneNode(Some(t)), t) == {"n"} == Servable(OneNode(Some(t)), t)
    ensures forall t :: AssignedTo(OneNode(None), t) == {}
    ensures Elements(["n"]) == {"n"}
  {
    assert Elements(["n"]) == {"n"};
    assert Free(OneNode(None)) == {"n"};
    forall t
      ensures AssignedTo(OneNode(Some(t)), t) == {"n"} == Servable(OneNode(Some(t)), t)
    {
      assert "n" in OneNode(Some(t));
    }
  }

  lemma OnePair(t: TunnelId)
    ensures Pairs(OneNode(Some(t))) == {Key(t, "n")} && Pairs(OneNode(None)) == {}
  {
    assert "n" in OneNode(Some(t));
  }

  const UNTRIED := map[Key("t", "n") := []]

  /** The one free node granted to a first tunnel whose container is still coming up. */
  function Creating(): System {
    System(Engine(OneNode(Some("t")), map["t" := Tunnel(Starting, 1, 1)], map[], map[], {}, {}),
           map[], map["t" := Creation(1, ["n"])], {"t"}, map[], UNTRIED)
  }

  /** The first tunnel running, its pass as given; its container has died. */
  function Running(passes: map<PassId, Pass>, trail: map<Key, seq<bool>>): System {
    System(Engine(OneNode(Some("t")), map["t" := Tunnel(TunnelState.Running, 1, 1)], map[], map["t" := {"n"}], {},
                  if passes == map[] then {} else {"t"}),
           map[], map[], {"t"}, passes, trail)
  }

  /** A pass over the first tunnel, one healthy verdict in. */
  function Passing(pass: Pass): System {
    Running(map[0 := pass], map[Key("t", "n") := [true]])
  }

  function Serving(s: System): System {
    s.(containers := map["t" := {"n"}])
  }

  lemma CreatingPossible()
    ensures Possible(Creating()) && PossibleGuarded(Creating())
  {
    hide Possible, PossibleGuarded;
    Start();
    var scraped := BOOT.(e := BOOT.e.(nodes := OneNode(None)));
    assert Step(1, BOOT, NodesChange(OneNode(None))) == Some(scraped);
    Onward(BOOT, NodesChange(OneNode(None)));
    OnwardGuarded(BOOT, NodesChange(OneNode(None)));
    var begin := CreateBegin("t", 1, ["n"]);
    BeginsCreating(scraped);
    Onward(scraped, begin);
    OnwardGuarded(scraped, begin);
  }

  lemma BeginsCreating(scraped: System)
    requires scraped == BOOT.(e := BOOT.e.(nodes := OneNode(None)))
    ensures Step(1, scraped, CreateBegin("t", 1, ["n"])) == Some(Creating())
  {
    hide IsRanking, Assign, Pairs, OneNode, Elements, PassStep, Dropped, Forgotten, Guarded, Possible, PossibleGuarded,
         Release, AssignedTo, Servable, SameAssignments, Run;
    OneNodeFacts();
    OnePair("t");
    One("t", Tunnel(Starting, 1, 1), Tunnel(Starting, 1, 1));
    One("t", Creation(1, ["n"]), Creation(1, ["n"]));
    OneOf("t");
    assert Fresh(map[], OneNode(Some("t"))) == UNTRIED;
  }

  /**
    A delete answered while the container is still coming up: the create then saves its row
    back, with a grant of one node and no node assigned.
   */
  lemma DeleteDuringCreateRevives()
    ensures exists s :: Possible(s) && "t" in s.e.tunnels && s.e.tunnels["t"].granted == 1
                        && AssignedTo(s.e.nodes, "t") == {}
  {
    CreatingPossible();
    OneNodeFacts();
    var gone := Step(1, Creating(), Delete("t", true)).value;
    Onward(Creating(), Delete("t", true));
    var back := Step(1, gone, CreateFinish("t")).value;
    Onward(gone, CreateFinish("t"));
    assert Possible(back) && back.e.nodes == OneNode(None);
  }

  /** The create's tunnel deleted, its node granted to a second tunnel, which serves it. */
  function Reassigned(): System {
    System(Engine(OneNode(Some("u")), map["u" := Tunnel(TunnelState.Running, 1, 1)], map[], map["u" := {"n"}], {}, {}),
           map["u" := {"n"}], map["t" := Creation(1, ["n"])], {"t", "u"}, map[], map[Key("u", "n") := []])
  }

  /** The create overtaken by its delete, the node granted again. */
  function Regranted(): System {
    Reassigned().(
      e := Reassigned().e.(tunnels := map["u" := Tunnel(Starting, 1, 1)], rendered := map[]),
      containers := map[], creating := map["t" := Creation(1, ["n"]), "u" := Creation(1, ["n"])]
    )
  }

  /** And before that. */
  function Deleted(): System {
    Creating().(e := Engine(OneNode(None), map[], map[], map[], {}, {}), trail := map[])
  }

  lemma CreateForgets()
    ensures Forgotten(Dropped(Creating().e, "t"), "t") == Deleted().e
  {
    OneNodeFacts();
    hide Release, OneNode;
    One("t", Tunnel(Starting, 1, 1), Tunnel(Starting, 1, 1));
  }

  lemma DeletedPossible()
    ensures PossibleGuarded(Deleted())
  {
    hide PossibleGuarded, IsRanking, Assign, Release, Pairs, OneNode, PassStep, Dropped, Forgotten;
    CreatingPossible();
    OnePair("t");
    CreateForgets();
    var s := Creating();
    assert Fresh(s.trail, OneNode(None)) == map[];
    assert s.containers - {"t"} == map[];
    assert Step(1, s, Delete("t", true)) == Some(Deleted());
    OnwardGuarded(s, Delete("t", true));
  }

  lemma RegrantedPossible()
    ensures PossibleGuarded(Regranted())
  {
    hide PossibleGuarded;
    DeletedPossible();
    OneNodeFacts();
    OnePair("u");
    One("u", Tunnel(Starting, 1, 1), Tunnel(Starting, 1, 1));
    hide IsRanking, Assign, Release, Pairs, OneNode, PassStep;
    assert Fresh(map[], OneNode(Some("u"))) == map[Key("u", "n") := []];
    assert {"t"} + {"u"} == {"t", "u"};
    assert Deleted().creating["u" := Creation(1, ["n"])] == Regranted().creating;
    assert Step(1, Deleted(), CreateBegin("u", 1, ["n"])) == Some(Regranted());
    OnwardGuarded(Deleted(), CreateBegin("u", 1, ["n"]));
  }

  lemma ReassignedPossible()
    ensures PossibleGuarded(Reassigned())
  {
    hide PossibleGuarded;
    RegrantedPossible();
    OneNodeFacts();
    One("u", Tunnel(Starting, 1, 1), Tunnel(TunnelState.Running, 1, 1));
    One("u", {"n"}, {"n"});
    hide OneNode, PassStep;
    assert Regranted().creating - {"u"} == Reassigned().creating;
    assert Step(1, Regranted(), CreateFinish("u")) == Some(Reassigned());
    OnwardGuarded(Regranted(), CreateFinish("u"));
  }

  /**
    A delete answered while the container is still coming up, the node granted to a second
    tunnel: the create then serves it too.
   */
  lemma DeleteDuringCreateShares()
    ensures exists s :: PossibleGuarded(s) && "t" in s.creating && Revives(s, CreateFinish("t"))
                        && HealthStray.Shares(Step(1, s, CreateFinish("t")).value, "t")
  {
    ReassignedPossible();
    OneNodeFacts();
    hide PossibleGuarded;
    var s := Reassigned();
    var d := Step(1, s, CreateFinish("t")).value;
    assert "n" in d.containers["t"] * d.containers["u"];
    assert HealthStray.Shares(d, "t");
    assert Revives(s, CreateFinish("t"));
  }

  /** A create granted nothing, deleted under a pass that is still in flight. */
  function Unprovided(busy: set<TunnelId>, passes: map<PassId, Pass>): System {
    System(Engine(map[], map[], map[], map[], {}, busy), map[], map["t" := Creation(2, [])], {"t"}, passes, map[])
  }

  function Unserved(busy: set<TunnelId>, passes: map<PassId, Pass>): System {
    Unprovided(busy, passes).(e := Unprovided(busy, passes).e.(tunnels := map["t" := Tunnel(Starting, 2, 0)]))
  }

  lemma UnprovidedPossible()
    ensures PossibleGuarded(Unprovided({}, map[0 := Begun("t", true)]))
  {
    hide PossibleGuarded;
    Start();
    var bare, begun, gone := Unserved({}, map[]), Unserved({"t"}, map[0 := Begun("t", true)]),
                             Unprovided({}, map[0 := Begun("t", true)]);
    NothingToGrant();
    One("t", Tunnel(Starting, 2, 0), Tunnel(Starting, 2, 0));
    One("t", Creation(2, []), Creation(2, []));
    OneOf("t");
    hide IsRanking, PassStep, Assign, Release, Pairs;
    assert Step(1, BOOT, CreateBegin("t", 2, [])) == Some(bare);
    OnwardGuarded(BOOT, CreateBegin("t", 2, []));
    assert Step(1, bare, PassBegin(0, "t", true)) == Some(begun);
    OnwardGuarded(bare, PassBegin(0, "t", true));
    assert begun.e.strikes - {} == map[] && begun.containers - {"t"} == map[];
    assert Forgotten(Dropped(begun.e, "t"), "t") == gone.e;
    assert Step(1, begun, Delete("t", true)) == Some(gone);
    OnwardGuarded(begun, Delete("t", true));
  }

  lemma NothingToGrant()
    ensures IsRanking(map[], []) && Assign(map[], Elements([]), "t") == map[] && Release(map[], "t") == map[]
    ensures Fresh(map[], map[]) == map[]
  {
  }

  /**
    A create that was granted nothing is deleted under a pass in flight: the row saved back
    claims no node, so the counts are exact still, but some run from there breaks them and some
    run makes two tunnels share a node.
   */
  lemma EmptyCreateRevives()
    ensures exists s :: PossibleGuarded(s) && "t" in s.creating && s.creating["t"].nodes == [] && HarmsLater(s)
  {
    UnprovidedPossible();
    var s := Unprovided({}, map[0 := Begun("t", true)]);
    var events :| Reached(1, events, s);
    ReachedInv(1, events, s);
    assert s.passes[0].t == "t" && !LonePass(s, "t");
    hide PossibleGuarded, Reached, Inv, Finishable, LonePass, HealthStray.GuardedLeads;
    RevivedRows(1, s, "t");
    var f := HealthRevival.FinishMiscounts(1, s, "t");
    var g := HealthRevival.FinishBreaks(1, s, "t");
    assert HarmsLater(s);
  }

  /** The create of the first tunnel finishes exactly, but not so every run from there. */
  ghost predicate HarmsLater(s: System)
    requires "t" in s.creating
  {
    var d := Step(1, s, CreateFinish("t")).value;
    && Exact(d.e) && (exists f :: HealthStray.GuardedLeads(1, d, f) && !Exact(f.e))
    && (exists f :: HealthStray.GuardedLeads(1, d, f) && HealthStray.Shares(f, "t"))
  }

  lemma RunningPossible()
    ensures PossibleGuarded(Running(map[], UNTRIED))
  {
    hide PossibleGuarded;
    CreatingPossible();
    OneNodeFacts();
    var up := Serving(Running(map[], UNTRIED));
    One("t", Tunnel(Starting, 1, 1), Tunnel(TunnelState.Running, 1, 1));
    One("t", Creation(1, ["n"]), Creation(1, ["n"]));
    One("t", {"n"}, {"n"});
    assert Step(1, Creating(), CreateFinish("t")) == Some(up);
    OnwardGuarded(Creating(), CreateFinish("t"));
    assert Step(1, up, ContainerDies("t")) == Some(Running(map[], UNTRIED));
    OnwardGuarded(up, ContainerDies("t"));
  }

  lemma ProbingPossible()
    ensures PossibleGuarded(Running(map[0 := Probing("t", ["n"])], UNTRIED))
  {
    hide PossibleGuarded;
    RunningPossible();
    OneNodeFacts();
    var quiet, begun := Running(map[], UNTRIED), Running(map[0 := Begun("t", false)], UNTRIED);
    One(0, Begun("t", false), Probing("t", ["n"]));
    OneOf("t");
    hide IsRanking, OneNode;
    assert Step(1, quiet, PassBegin(0, "t", false)) == Some(begun);
    OnwardGuarded(quiet, PassBegin(0, "t", false));
    assert Step(1, begun, Snapshot(0, ["n"])) == Some(Running(map[0 := Probing("t", ["n"])], UNTRIED));
    OnwardGuarded(begun, Snapshot(0, ["n"]));
  }

  lemma HealthyVerdict(e: Engine)
    requires e == Running(map[0 := Probing("t", ["n"])], UNTRIED).e
    ensures Judged(e, "t", ["n"], map["n" := true], 1) == e
    ensures IsRanking(e.nodes, []) && Committed(e, "t", ["n"], map["n" := true], 1, []) == e
  {
    var snap, results := ["n"], map["n" := true];
    assert snap[..0] == [];
    assert Judged(e, "t", snap, results, 1) == e.(strikes := e.strikes - {Key("t", "n")}) == e;
    assert SwapCount(e, "t", snap, results, 1) == 0;
    assert Free(e.nodes) == {};
  }

  /** A pass over one healthy node with no room left changes only its history. */
  lemma CommitQuiet()
    ensures Step(1, Running(map[0 := Probing("t", ["n"])], UNTRIED), Commit(0, map["n" := true], []))
            == Some(Passing(Healing("t")))
  {
    hide Judged, SwapCount, Committed, IsRanking, Pairs, OneNode, Extended, Fresh;
    var s := Running(map[0 := Probing("t", ["n"])], UNTRIED);
    HealthyVerdict(s.e);
    QuietTrail();
    One(0, Probing("t", ["n"]), Healing("t"));
  }

  lemma QuietTrail()
    ensures var nodes := OneNode(Some("t"));
            Fresh(Extended(UNTRIED, nodes, "t", ["n"], map["n" := true]), nodes) == map[Key("t", "n") := [true]]
  {
    hide Pairs, OneNode;
    OnePair("t");
    var extended := Extended(UNTRIED, OneNode(Some("t")), "t", ["n"], map["n" := true]);
    assert extended[Key("t", "n")] == [] + [true] == [true];
    assert extended == map[Key("t", "n") := [true]];
  }

  /** A self-heal about to roll out the node the first tunnel holds. */
  lemma RollingPossible()
    ensures PossibleGuarded(Passing(Rolling("t", {"n"}, true)))
  {
    hide PossibleGuarded;
    ProbingPossible();
    CommitQuiet();
    OneNodeFacts();
    OnwardGuarded(Running(map[0 := Probing("t", ["n"])], UNTRIED), Commit(0, map["n" := true], []));
    HealsAndReads();
    OnwardGuarded(Passing(Healing("t")), Heal(0, Down));
    OnwardGuarded(Passing(Deploying("t", true)), DeployRead(0));
  }

  lemma HealsAndReads()
    ensures Step(1, Passing(Healing("t")), Heal(0, Down)) == Some(Passing(Deploying("t", true)))
    ensures Step(1, Passing(Deploying("t", true)), DeployRead(0)) == Some(Passing(Rolling("t", {"n"}, true)))
  {
    OneNodeFacts();
    One(0, Healing("t"), Deploying("t", true));
    One(0, Deploying("t", true), Rolling("t", {"n"}, true));
    hide IsRanking, OneNode;
  }

  /** The first tunnel deleted under its roll-out, its node granted to a second. */
  function Overtaken(): System {
    System(Engine(OneNode(Some("u")), map["u" := Tunnel(Starting, 1, 1)], map[], map[], {}, {}),
           map[], map["u" := Creation(1, ["n"])], {"t", "u"}, map[0 := Rolling("t", {"n"}, true)],
           map[Key("u", "n") := []])
  }

  function Gone(): System {
    System(Engine(OneNode(None), map[], map[], map[], {}, {}), map[], map[], {"t"},
           map[0 := Rolling("t", {"n"}, true)], map[])
  }

  lemma Forgets(s: System)
    requires s == Passing(Rolling("t", {"n"}, true))
    ensures Forgotten(Dropped(s.e, "t"), "t") == Gone().e
  {
    OneNodeFacts();
    hide Release, OneNode;
    One("t", Tunnel(TunnelState.Running, 1, 1), Tunnel(TunnelState.Running, 1, 1));
    One("t", {"n"}, {"n"});
    OneOf("t");
  }

  lemma GonePossible()
    ensures PossibleGuarded(Gone())
  {
    hide PossibleGuarded, IsRanking, Assign, Release, Pairs, OneNode, PassStep, Dropped, Forgotten;
    RollingPossible();
    OnePair("t");
    var s := Passing(Rolling("t", {"n"}, true));
    Forgets(s);
    assert Fresh(s.trail, OneNode(None)) == map[];
    assert s.containers - {"t"} == map[];
    assert Step(1, s, Delete("t", true)) == Some(Gone());
    OnwardGuarded(s, Delete("t", true));
  }

  lemma OvertakenPossible()
    ensures PossibleGuarded(Overtaken())
  {
    hide PossibleGuarded;
    GonePossible();
    OneNodeFacts();
    OnePair("u");
    One("u", Tunnel(Starting, 1, 1), Tunnel(Starting, 1, 1));
    One("u", Creation(1, ["n"]), Creation(1, ["n"]));
    hide IsRanking, Assign, Release, Pairs, OneNode, PassStep;
    assert Fresh(map[], OneNode(Some("u"))) == map[Key("u", "n") := []];
    assert {"t"} + {"u"} == {"t", "u"};
    assert Step(1, Gone(), CreateBegin("u", 1, ["n"])) == Some(Overtaken());
    OnwardGuarded(Gone(), CreateBegin("u", 1, ["n"]));
  }

  /**
    A delete answered while an update is under way: the update then leaves a container behind,
    and the node it serves is free to go to another tunnel, which serves it as well.
   */
  lemma DeleteDuringRollOutShares()
    ensures exists s :: PossibleGuarded(s) && "t" !in s.e.tunnels && "u" in s.e.tunnels && "u" !in s.e.pending
                        && "t" in s.containers && "u" in s.containers && "n" in s.containers["t"] * s.containers["u"]
  {
    hide PossibleGuarded;
    OvertakenPossible();
    OneNodeFacts();
    var up := Step(1, Overtaken(), CreateFinish("u")).value;
    assert up == Overtaken().(e := up.e, containers := map["u" := {"n"}], creating := map[]);
    assert up.e.tunnels.Keys == {"u"} && up.e.pending == {};
    OnwardGuarded(Overtaken(), CreateFinish("u"));
    var shared := Step(1, up, RollOut(0, Rolled)).value;
    OnwardGuarded(up, RollOut(0, Rolled));
    assert PossibleGuarded(shared) && shared.containers == map["u" := {"n"}, "t" := {"n"}];
  }

  // ----- A failed update that leaves its container running -----

  /** The first tunnel's node, dead, and a second one. */
  function TwoNodes(first: Option<TunnelId>, second: Option<TunnelId>): Nodes {
    map["n" := ROW.(assignedTo := first, state := Dead), "m" := ROW.(assignedTo := second)]
  }

  /** The first tunnel holding a dead node while a healthy one is free. */
  function Failing(): System {
    Running(map[], UNTRIED).(e := Running(map[], UNTRIED).e.(nodes := TwoNodes(Some("t"), None)))
  }

  lemma FailingPossible()
    ensures PossibleGuarded(Failing())
  {
    hide PossibleGuarded;
    RunningPossible();
    var s := Running(map[], UNTRIED);
    var added := OneNode(Some("t"))["m" := ROW];
    assert SameAssignments(s.e.nodes, TwoNodes(Some("t"), None));
    assert Step(1, s, NodesChange(TwoNodes(Some("t"), None))) == Some(Failing());
    OnwardGuarded(s, NodesChange(TwoNodes(Some("t"), None)));
  }

  /** The engine once the dead node is swapped out. */
  function Emptied(): Engine {
    Failing().e.(busy := {"t"}, nodes := TwoNodes(None, None),
                 tunnels := map["t" := Tunnel(TunnelState.Running, 1, 0)])
  }

  /** And once the healthy one is in. */
  function Exchanged(): Engine {
    Failing().e.(busy := {"t"}, nodes := TwoNodes(None, Some("t")), pending := {"t"})
  }

  lemma SwapsOutDead(e: Engine)
    requires e == HealthStray.Busied(Failing().e, "t")
    ensures Judged(e, "t", ["n"], map["n" := false], 1) == Emptied()
    ensures SwapCount(e, "t", ["n"], map["n" := false], 1) == 1
  {
    assert ["n"][..0] == [];
    assert e.strikes - {Key("t", "n")} == e.strikes && {} + {"t"} == {"t"};
    assert Unassign(e.nodes, "n") == TwoNodes(None, None);
    assert e.tunnels["t" := Tunnel(TunnelState.Running, 1, 0)] == map["t" := Tunnel(TunnelState.Running, 1, 0)];
  }

  lemma TopsUpHealthy()
    ensures IsRanking(Emptied().nodes, ["m"]) && TopUpIds(Emptied(), "t", ["m"]) == ["m"]
    ensures Provisioned(Emptied(), "t", ["m"]) == Exchanged().(pending := {})
  {
    assert Free(TwoNodes(None, None)) == {"m"} == Elements(["m"]);
    assert Assign(TwoNodes(None, None), {"m"}, "t") == TwoNodes(None, Some("t"));
    hide TwoNodes, Free, Elements, Assign;
    One("t", Tunnel(TunnelState.Running, 1, 0), Tunnel(TunnelState.Running, 1, 1));
  }

  /** The dead verdict swaps the one node for the other. */
  lemma SwapsNodes(e: Engine)
    requires e == HealthStray.Busied(Failing().e, "t")
    ensures IsRanking(Judged(e, "t", ["n"], map["n" := false], 1).nodes, ["m"])
    ensures Committed(e, "t", ["n"], map["n" := false], 1, ["m"]) == Exchanged()
  {
    SwapsOutDead(e);
    TopsUpHealthy();
    OneOf("t");
    hide Judged, SwapCount, Provisioned, TopUpIds, TwoNodes;
  }

  /** The pass that swapped them, about to deploy. */
  lemma CommittedPossible() returns (m: System)
    ensures HealthStray.GuardedLeads(1, BOOT, m)
    ensures m.e == Exchanged() && 0 in m.passes && m.passes[0] == Deploying("t", false)
  {
    hide Committed, Judged, IsRanking, TwoNodes, PossibleGuarded, HealthStray.GuardedLeads, HealthStray.Ready;
    FailingPossible();
    LeadsPossible(Failing());
    FailingReady();
    FailingSnap();
    SwapsNodes(HealthStray.Busied(Failing().e, "t"));
    HealthStray.PassCommits(1, BOOT, Failing(), "t", 0, ["n"], map["n" := false], ["m"]);
    m := HealthStray.CommittedIn(1, Failing(), "t", 0, ["n"], map["n" := false], ["m"]);
  }

  /** The new node on its way out, the old one still what was last rendered. */
  lemma ReplacingPossible() returns (s: System)
    ensures PossibleGuarded(s) && 0 in s.passes && s.passes[0] == Rolling("t", {"m"}, false)
    ensures s.e.rendered == map["t" := {"n"}] && "t" in s.e.tunnels
  {
    hide TwoNodes, Servable, PossibleGuarded, HealthStray.GuardedLeads;
    var m := CommittedPossible();
    SecondServable();
    s := Move(m, 0, Rolling("t", {"m"}, false));
    assert {"m"} != {"n"} by { assert "m" !in {"n"}; }
    assert Step(1, m, DeployRead(0)) == Some(s);
    HealthStray.Onward(1, BOOT, m, DeployRead(0));
    PossibleLeads(s);
  }

  lemma FailingSnap()
    ensures Distinct(["n"]) && Elements(["n"]) == AssignedTo(Failing().e.nodes, "t")
  {
    assert Elements(["n"]) == {"n"};
  }

  lemma FailingReady()
    ensures HealthStray.Ready(1, Failing(), "t", 0)
  {
    FailingPossible();
    var events :| Reached(1, events, Failing());
    ReachedInv(1, events, Failing());
  }

  lemma SecondServable()
    ensures Servable(TwoNodes(None, Some("t")), "t") == {"m"}
  {
  }

  lemma LeadsPossible(s: System)
    requires PossibleGuarded(s)
    ensures HealthStray.GuardedLeads(1, BOOT, s)
  {
    var events :| Reached(1, events, s);
    assert GuardedRun(1, BOOT, events) && Run(1, BOOT, events) == Some(s);
  }

  lemma PossibleLeads(s: System)
    requires HealthStray.GuardedLeads(1, BOOT, s)
    ensures PossibleGuarded(s)
  {
    var events :| GuardedRun(1, BOOT, events) && Run(1, BOOT, events) == Some(s);
    assert Reached(1, events, s);
  }

  /**
    An update that errors after its new container came up, and whose clean-up fails too: the
    tunnel later settles on its old config without touching the container, and the node it
    still serves goes to a second tunnel.
   */
  lemma FailedUpdateShares()
    ensures exists s, f ::
              var update := RollOut(0, Failed(Replaced, false));
              && PossibleGuarded(s) && LeavesStray(s, update) && Step(1, s, update).Some?
              && HealthStray.GuardedLeads(1, Step(1, s, update).value, f) && HealthStray.Shares(f, "t")
  {
    var s := ReplacingPossible();
    var events :| Reached(1, events, s);
    hide Reached;
    HealthStray.FailedUpdateHarmlessIff(1, events, s, 0, false);
    assert "m" in s.passes[0].sig && "m" !in s.e.rendered["t"];
    var update := RollOut(0, Failed(Replaced, false));
    var f :| HealthStray.GuardedLeads(1, PassStep(1, s, update).value, f) && HealthStray.Shares(f, "t");
    assert Step(1, s, update) == PassStep(1, s, update);
  }
}
