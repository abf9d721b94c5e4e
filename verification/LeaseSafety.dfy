/** What the lease protocol promises in every run. */
module LeaseSafety {
  import opened Collections
  import opened Wrappers
  import opened TenancyStore
  import opened LeaseProtocol

  /** Every run from a state satisfying the invariant ends in one. */
  lemma {:induction false} RunKeeps(cfg: Settings, b: Board, actions: seq<Action>)
    requires Inv(cfg, b) && Run(cfg, b, actions).Some?
    ensures Inv(cfg, Run(cfg, b, actions).value)
  {
    if actions != [] {
      var init := actions[..|actions| - 1];
      RunKeeps(cfg, b, init);
      StepKeeps(cfg, Run(cfg, b, init).value, actions[|actions| - 1]);
    }
  }

  lemma EmptyInv(cfg: Settings)
    ensures Inv(cfg, EMPTY)
  {
    forall t: TenantId ensures Occupancy(EMPTY.store, t) <= cfg.Cap() {
      assert LinksOf(EMPTY.store, t) == {} && ReservationsOf(EMPTY.store, t) == {};
    }
  }

  ghost predicate Reachable(cfg: Settings, b: Board) {
    exists actions :: Run(cfg, EMPTY, actions) == Some(b)
  }

  lemma ReachableInv(cfg: Settings, b: Board)
    requires Reachable(cfg, b)
    ensures Inv(cfg, b)
  {
    var actions :| Run(cfg, EMPTY, actions) == Some(b);
    EmptyInv(cfg);
    RunKeeps(cfg, EMPTY, actions);
  }

  // ----- No more live tunnels than slots -----

  /** The live tunnels provisioned for a tenant. */
  ghost function LiveOf(b: Board, t: TenantId): set<TunnelId>
    requires WellFormed(b)
  {
    set id | id in b.live && id in b.origin && b.homes[b.origin[id]] == t
  }

  /** A live tunnel, or a create call the engine is or may still be acting on. */
  datatype Claim = Live(id: TunnelId) | Pending(res: ReservationId)

  ghost function ClaimsOf(b: Board, t: TenantId): set<Claim>
    requires WellFormed(b)
  {
    (set id | id in LiveOf(b, t) :: Live(id))
    + (set r | r in b.inbox && r in ReservationsOf(b.store, t) :: Pending(r))
  }

  /** A row that counts against the cap. */
  datatype Slot = OwnedSlot(link: Link) | ReservedSlot(res: ReservationId)

  function SlotsOf(st: StoreState, t: TenantId): set<Slot> {
    (set l | l in LinksOf(st, t) :: OwnedSlot(l)) + (set r | r in ReservationsOf(st, t) :: ReservedSlot(r))
  }

  /** The row that accounts for a claim. */
  ghost function SlotOf(b: Board, t: TenantId, c: Claim): Slot
    requires WellFormed(b) && c in ClaimsOf(b, t)
  {
    match c
    case Live(id) => if Link(t, id) in b.store.links then OwnedSlot(Link(t, id)) else ReservedSlot(b.origin[id])
    case Pending(r) => ReservedSlot(r)
  }

  /** Claims inject into the tenant's rows. */
  lemma ClaimsInject(cfg: Settings, b: Board, t: TenantId)
    requires Inv(cfg, b)
    ensures forall c :: c in ClaimsOf(b, t) ==> SlotOf(b, t, c) in SlotsOf(b.store, t)
    ensures forall c, d :: c in ClaimsOf(b, t) && d in ClaimsOf(b, t) && SlotOf(b, t, c) == SlotOf(b, t, d)
              ==> c == d
  {
    forall c | c in ClaimsOf(b, t) ensures SlotOf(b, t, c) in SlotsOf(b.store, t) {
      match c {
        case Live(id) =>
          if Link(t, id) in b.store.links {
            assert Link(t, id) in LinksOf(b.store, t);
          } else {
            assert b.origin[id] in ReservationsOf(b.store, t);
          }
        case Pending(r) => assert r in ReservationsOf(b.store, t);
      }
    }
  }

  lemma {:induction false} InjectionCard<S, T>(m: map<S, T>, b: set<T>)
    requires forall x :: x in m ==> m[x] in b
    requires forall x, y :: x in m && y in m && m[x] == m[y] ==> x == y
    ensures |m| <= |b|
    decreases |m|
  {
    if x :| x in m {
      var rest := m - {x};
      assert m.Keys == rest.Keys + {x};
      assert |m.Keys| == |rest.Keys| + 1;
      InjectionCard(rest, b - {m[x]});
    } else {
      assert m == map[];
    }
  }

  lemma OwnedCount(links: set<Link>)
    ensures |set l | l in links :: OwnedSlot(l)| <= |links|
  {
    var slots := set l | l in links :: OwnedSlot(l);
    var m := map s | s in slots :: s.link;
    assert m.Keys == slots;
    InjectionCard(m, links);
  }

  lemma HeldCount(held: set<ReservationId>)
    ensures |set r | r in held :: ReservedSlot(r)| <= |held|
  {
    var slots := set r | r in held :: ReservedSlot(r);
    var m := map s | s in slots :: s.res;
    assert m.Keys == slots;
    InjectionCard(m, held);
  }

  lemma UnionCard<T>(a: set<T>, b: set<T>)
    ensures |a + b| <= |a| + |b|
  {
    assert a + b == a + (b - a);
    SubsetCard(b - a, b);
  }

  lemma SlotsCount(st: StoreState, t: TenantId)
    ensures |SlotsOf(st, t)| <= Occupancy(st, t)
  {
    OwnedCount(LinksOf(st, t));
    HeldCount(ReservationsOf(st, t));
    UnionCard(set l | l in LinksOf(st, t) :: OwnedSlot(l), set r | r in ReservationsOf(st, t) :: ReservedSlot(r));
  }

  lemma LiveCount(live: set<TunnelId>, claims: set<Claim>)
    requires forall id :: id in live ==> Live(id) in claims
    ensures |live| <= |claims|
  {
    var m := map id | id in live :: Live(id);
    assert m.Keys == live;
    InjectionCard(m, claims);
  }

  lemma ClaimsCount(b: Board, t: TenantId, slots: set<Slot>)
    requires WellFormed(b)
    requires forall c :: c in ClaimsOf(b, t) ==> SlotOf(b, t, c) in slots
    requires forall c, d :: c in ClaimsOf(b, t) && d in ClaimsOf(b, t) && SlotOf(b, t, c) == SlotOf(b, t, d)
               ==> c == d
    ensures |ClaimsOf(b, t)| <= |slots|
  {
    var m := map c | c in ClaimsOf(b, t) :: SlotOf(b, t, c);
    assert m.Keys == ClaimsOf(b, t);
    InjectionCard(m, slots);
  }

  /** Live tunnels and creations still to come never exceed the tenant's rows, nor the cap. */
  lemma ClaimsWithinCap(cfg: Settings, b: Board, t: TenantId)
    requires Inv(cfg, b)
    ensures |LiveOf(b, t)| <= |ClaimsOf(b, t)| <= Occupancy(b.store, t) <= cfg.Cap()
  {
    ClaimsInject(cfg, b, t);
    ClaimsCount(b, t, SlotsOf(b.store, t));
    SlotsCount(b.store, t);
    LiveCount(LiveOf(b, t), ClaimsOf(b, t));
  }

  /** In every reachable state no tenant has more tunnels, live or under construction, than its cap. */
  lemma NeverOverCap(cfg: Settings, b: Board, t: TenantId)
    requires Reachable(cfg, b)
    ensures Inv(cfg, b)
    ensures |LiveOf(b, t)| <= |ClaimsOf(b, t)| <= Occupancy(b.store, t) <= cfg.Cap()
  {
    ReachableInv(cfg, b);
    ClaimsWithinCap(cfg, b, t);
  }

  // ----- Gone is gone, stranded stays counted -----

  /** A tunnel id removed after its create was over never becomes live again. */
  lemma {:induction false} GoneForever(cfg: Settings, b: Board, actions: seq<Action>, id: TunnelId)
    requires Inv(cfg, b) && Run(cfg, b, actions).Some? && Gone(b, id)
    ensures Gone(Run(cfg, b, actions).value, id)
  {
    if actions != [] {
      var init := actions[..|actions| - 1];
      GoneForever(cfg, b, init, id);
      RunKeeps(cfg, b, init);
      StepKeeps(cfg, Run(cfg, b, init).value, actions[|actions| - 1]);
    }
  }

  /** No step takes a lease off a live tunnel: whatever is unlinked is gone, in every later state. */
  lemma UnlinkedIsGone(cfg: Settings, b: Board, a: Action, l: Link, later: seq<Action>)
    requires Inv(cfg, b) && Step(cfg, b, a).Some? && Run(cfg, Step(cfg, b, a).value, later).Some?
    requires l in b.store.links && l !in Step(cfg, b, a).value.store.links
    ensures Gone(Run(cfg, Step(cfg, b, a).value, later).value, l.tunnel)
  {
    StepKeeps(cfg, b, a);
    GoneForever(cfg, Step(cfg, b, a).value, later, l.tunnel);
  }

  /** A reservation nobody holds: its request died, or ended without knowing the outcome. */
  ghost predicate Stranded(b: Board, res: ReservationId) {
    && res in b.store.reservations
    && forall q :: q in b.requests ==> Held(b.requests[q]) != Some(res)
  }

  /** A stranded reservation counts against the cap in every later state. */
  lemma {:induction false} StrandedStays(cfg: Settings, b: Board, actions: seq<Action>, res: ReservationId)
    requires Inv(cfg, b) && Run(cfg, b, actions).Some? && Stranded(b, res)
    ensures Stranded(Run(cfg, b, actions).value, res)
  {
    if actions != [] {
      var init := actions[..|actions| - 1];
      StrandedStays(cfg, b, init, res);
      RunKeeps(cfg, b, init);
      StrandedStep(cfg, Run(cfg, b, init).value, actions[|actions| - 1], res);
    }
  }

  lemma StrandedStep(cfg: Settings, b: Board, a: Action, res: ReservationId)
    requires Inv(cfg, b) && Step(cfg, b, a).Some? && Stranded(b, res)
    ensures Stranded(Step(cfg, b, a).value, res)
  {
    hide RequestMove, RequestOk, Exclusive, Covered, Capped;
    StepKeeps(cfg, b, a);
    if a.Act? {
      var r := b.requests[a.q];
      RequestMoveOk(cfg, b, r, a.choice);
      assert r == b.requests[a.q] && Held(r) != Some(res);
    }
  }

  // ----- A lease taken away never comes back -----

  /** The reservation a lease came out of is used up. */
  ghost predicate Used(b: Board, l: Link) {
    && l.tunnel in b.origin && b.origin[l.tunnel] in b.homes
    && b.origin[l.tunnel] !in b.store.reservations
  }

  /** Every lease came out of a reservation, which is used up. */
  ghost predicate Converted(b: Board) {
    forall l :: l in b.store.links ==> Used(b, l)
  }

  /** The lease is not stored, and the only reservation it could come out of is used up. */
  ghost predicate Cleared(b: Board, l: Link) {
    l !in b.store.links && Used(b, l)
  }

  /** A step adds a reservation only under a new id, and a lease only by converting one. */
  ghost predicate Adds(b: Board, r: Request, after: StoreState) {
    && (forall x :: x in after.reservations ==> x in b.store.reservations || x !in b.homes)
    && (forall l :: l in after.links && l !in b.store.links ==>
          r.Completing? && l == Link(r.tenant, r.id) && r.res !in after.reservations)
  }

  lemma FinalizeAdds(b: Board, r: Request, c: Choice)
    requires FinalizeMove(b, r, c).Some?
    ensures Adds(b, r, FinalizeMove(b, r, c).value.after.store)
  {
  }

  lemma MoveAdds(cfg: Settings, b: Board, r: Request, c: Choice)
    requires RequestMove(cfg, b, r, c).Some?
    ensures Adds(b, r, RequestMove(cfg, b, r, c).value.after.store)
  {
    if r.Noting? || r.Completing? || r.Releasing? {
      if c != Die { FinalizeAdds(b, r, c); }
    } else if !r.Reserving? && !Unlinking(r) {
      SlotsUntouched(cfg, b, r, c);
    }
  }

  lemma UsedStep(cfg: Settings, b: Board, a: Action, l: Link)
    requires Inv(cfg, b) && Step(cfg, b, a).Some? && Used(b, l)
    ensures Used(Step(cfg, b, a).value, l)
  {
    hide RequestMove, RequestOk, Exclusive, Covered, Capped;
    StepKeeps(cfg, b, a);
    if a.Act? {
      MoveAdds(cfg, b, b.requests[a.q], a.choice);
    }
  }

  lemma NewLeaseUsed(cfg: Settings, b: Board, a: Action, l: Link)
    requires Inv(cfg, b) && Step(cfg, b, a).Some?
    requires l !in b.store.links && l in Step(cfg, b, a).value.store.links
    ensures !Used(b, l) && Used(Step(cfg, b, a).value, l)
  {
    hide RequestMove, Exclusive, Covered, Capped;
    assert a.Act?;
    var r := b.requests[a.q];
    MoveAdds(cfg, b, r, a.choice);
    assert RequestOk(b, r);
    StepKeeps(cfg, b, a);
  }

  lemma ConvertedStep(cfg: Settings, b: Board, a: Action)
    requires Inv(cfg, b) && Step(cfg, b, a).Some? && Converted(b)
    ensures Converted(Step(cfg, b, a).value)
  {
    hide Inv, Used, Step;
    forall l | l in Step(cfg, b, a).value.store.links ensures Used(Step(cfg, b, a).value, l) {
      if l in b.store.links { UsedStep(cfg, b, a, l); } else { NewLeaseUsed(cfg, b, a, l); }
    }
  }

  lemma ClearedStep(cfg: Settings, b: Board, a: Action, l: Link)
    requires Inv(cfg, b) && Step(cfg, b, a).Some? && Cleared(b, l)
    ensures Cleared(Step(cfg, b, a).value, l)
  {
    hide Inv, Used, Step;
    UsedStep(cfg, b, a, l);
    if l in Step(cfg, b, a).value.store.links { NewLeaseUsed(cfg, b, a, l); }
  }

  lemma {:induction false} ConvertedRun(cfg: Settings, b: Board, actions: seq<Action>)
    requires Inv(cfg, b) && Converted(b) && Run(cfg, b, actions).Some?
    ensures Converted(Run(cfg, b, actions).value)
  {
    hide Inv, Converted, Step;
    if actions != [] {
      var init := actions[..|actions| - 1];
      ConvertedRun(cfg, b, init);
      RunKeeps(cfg, b, init);
      ConvertedStep(cfg, Run(cfg, b, init).value, actions[|actions| - 1]);
    }
  }

  lemma {:induction false} ClearedRun(cfg: Settings, b: Board, actions: seq<Action>, l: Link)
    requires Inv(cfg, b) && Cleared(b, l) && Run(cfg, b, actions).Some?
    ensures Cleared(Run(cfg, b, actions).value, l)
  {
    hide Inv, Cleared, Step;
    if actions != [] {
      var init := actions[..|actions| - 1];
      ClearedRun(cfg, b, init, l);
      RunKeeps(cfg, b, init);
      ClearedStep(cfg, Run(cfg, b, init).value, actions[|actions| - 1], l);
    }
  }

  lemma ReachableConverted(cfg: Settings, b: Board)
    requires Reachable(cfg, b)
    ensures Converted(b)
  {
    var actions :| Run(cfg, EMPTY, actions) == Some(b);
    EmptyInv(cfg);
    ConvertedRun(cfg, EMPTY, actions);
  }

  /** In every run, a lease that some step took away is never stored again. */
  lemma UnlinkedStays(cfg: Settings, b: Board, a: Action, l: Link, later: seq<Action>)
    requires Reachable(cfg, b) && Step(cfg, b, a).Some? && Run(cfg, Step(cfg, b, a).value, later).Some?
    requires l in b.store.links && l !in Step(cfg, b, a).value.store.links
    ensures l !in Run(cfg, Step(cfg, b, a).value, later).value.store.links
  {
    hide Inv, Step, Run, Reachable;
    ReachableInv(cfg, b);
    ReachableConverted(cfg, b);
    UsedStep(cfg, b, a, l);
    StepKeeps(cfg, b, a);
    ClearedRun(cfg, Step(cfg, b, a).value, later, l);
  }

  // ----- Disable -----

  /** A known tenant that may not lease. */
  predicate Barred(st: StoreState, t: TenantId) {
    t in st.tenants && st.tenants[t].state != Active
  }

  lemma MeteringKeepsState(cfg: Settings, b: Board, a: Action, t: TenantId)
    requires !a.Act? && !a.Arrive? && EnvironmentStep(cfg, b, a).Some? && Barred(b.store, t)
    ensures Barred(EnvironmentStep(cfg, b, a).value.store, t)
  {
  }

  lemma BarredStep(cfg: Settings, b: Board, a: Action, t: TenantId)
    requires WellFormed(b) && Step(cfg, b, a).Some? && Barred(b.store, t)
    ensures Barred(Step(cfg, b, a).value.store, t)
    ensures Occupancy(Step(cfg, b, a).value.store, t) <= Occupancy(b.store, t)
  {
    StepSlots(cfg, b, a);
    if a.Act? {
      BarredMove(cfg, b, b.requests[a.q], a.choice, t);
    } else if !a.Arrive? {
      MeteringKeepsState(cfg, b, a, t);
    }
  }

  lemma BarredMove(cfg: Settings, b: Board, r: Request, c: Choice, t: TenantId)
    requires RequestMove(cfg, b, r, c).Some? && Barred(b.store, t)
    ensures Barred(RequestMove(cfg, b, r, c).value.after.store, t)
  {
    if !r.Disabling? { SameTenants(cfg, b, r, c); }
  }

  lemma SameTenants(cfg: Settings, b: Board, r: Request, c: Choice)
    requires RequestMove(cfg, b, r, c).Some? && !r.Disabling?
    ensures RequestMove(cfg, b, r, c).value.after.store.tenants == b.store.tenants
  {
    if r.Reserving? || r.Sending? || r.Awaiting? {
      SameTenantsProvision(cfg, b, r, c);
    } else if r.Noting? || r.Completing? || r.Releasing? {
      SameTenantsFinalize(b, r, c);
    }
  }

  lemma SameTenantsProvision(cfg: Settings, b: Board, r: Request, c: Choice)
    ensures ProvisionMove(cfg, b, r, c).Some? ==>
              ProvisionMove(cfg, b, r, c).value.after.store.tenants == b.store.tenants
  {
  }

  lemma SameTenantsFinalize(b: Board, r: Request, c: Choice)
    ensures FinalizeMove(b, r, c).Some? ==>
              FinalizeMove(b, r, c).value.after.store.tenants == b.store.tenants
  {
  }

  /** After a disable the tenant stays barred and its slots never grow again, in any run. */
  lemma {:induction false} DisabledNeverGrows(cfg: Settings, b: Board, actions: seq<Action>, t: TenantId)
    requires Inv(cfg, b) && Run(cfg, b, actions).Some? && Barred(b.store, t)
    ensures Barred(Run(cfg, b, actions).value.store, t)
    ensures Occupancy(Run(cfg, b, actions).value.store, t) <= Occupancy(b.store, t)
  {
    if actions != [] {
      var init := actions[..|actions| - 1];
      DisabledNeverGrows(cfg, b, init, t);
      RunKeeps(cfg, b, init);
      BarredStep(cfg, Run(cfg, b, init).value, actions[|actions| - 1], t);
    }
  }

  /** A step that takes a lease away gives its slot back. */
  lemma LeaseLost(cfg: Settings, b: Board, a: Action, l: Link)
    requires Inv(cfg, b) && Step(cfg, b, a).Some?
    requires l in b.store.links && l !in Step(cfg, b, a).value.store.links
    ensures Occupancy(Step(cfg, b, a).value.store, l.tenant) < Occupancy(b.store, l.tenant)
  {
    hide Inv, Occupancy;
    assert a.Act?;
    var r := b.requests[a.q];
    OnlyUnlinksRemove(cfg, b, r, a.choice, l);
    assert Step(cfg, b, a).value.store == Unlinked(b.store, l.tenant, l.tunnel);
    UnlinkedCount(b.store, l.tenant, l.tunnel);
  }

  lemma OnlyUnlinksRemove(cfg: Settings, b: Board, r: Request, c: Choice, l: Link)
    requires RequestMove(cfg, b, r, c).Some? && l in b.store.links
    requires l !in RequestMove(cfg, b, r, c).value.after.store.links
    ensures Unlinking(r) && l == Link(r.tenant, r.id)
    ensures RequestMove(cfg, b, r, c).value.after.store == Unlinked(b.store, r.tenant, r.id)
  {
  }

  /** No action of these is a step of request `q`. */
  predicate Others(actions: seq<Action>, q: RequestId) {
    forall a :: a in actions ==> !(a.Act? && a.q == q)
  }

  /** While others run, a barred tenant keeps the lease and gets no slots, or has fewer than before. */
  lemma {:induction false} Waiting(cfg: Settings, b: Board, others: seq<Action>, q: RequestId, l: Link)
    requires Inv(cfg, b) && q in b.requests && l in b.store.links
    requires Run(cfg, b, others).Some? && Others(others, q)
    ensures var m := Run(cfg, b, others).value;
            && Inv(cfg, m) && q in m.requests && m.requests[q] == b.requests[q]
            && (Barred(b.store, l.tenant) ==>
                  && Barred(m.store, l.tenant)
                  && Occupancy(m.store, l.tenant) <= Occupancy(b.store, l.tenant)
                  && (l !in m.store.links ==> Occupancy(m.store, l.tenant) < Occupancy(b.store, l.tenant)))
  {
    hide Inv, Barred, Occupancy;
    if others != [] {
      var init, a := others[..|others| - 1], others[|others| - 1];
      assert others == init + [a];
      Waiting(cfg, b, init, q, l);
      var m := Run(cfg, b, init).value;
      InvWellFormed(cfg, m);
      StepKeeps(cfg, m, a);
      StaysInFlight(cfg, m, a, q);
      if Barred(b.store, l.tenant) { BarredStep(cfg, m, a, l.tenant); }
      if l in m.store.links && l !in Step(cfg, m, a).value.store.links {
        LeaseLost(cfg, m, a, l);
      }
    }
  }

  lemma InvWellFormed(cfg: Settings, b: Board)
    requires Inv(cfg, b)
    ensures WellFormed(b)
  {
  }

  /** A request stays where it is until its own next step. */
  lemma StaysInFlight(cfg: Settings, b: Board, a: Action, q: RequestId)
    requires Inv(cfg, b) && Step(cfg, b, a).Some? && q in b.requests && !(a.Act? && a.q == q)
    ensures var d := Step(cfg, b, a).value; q in d.requests && d.requests[q] == b.requests[q]
  {
    hide Inv, RequestMove;
    if a.Act? {
      SameRequests(cfg, b, b.requests[a.q], a.choice);
    }
  }

  lemma SameRequests(cfg: Settings, b: Board, r: Request, c: Choice)
    requires RequestMove(cfg, b, r, c).Some?
    ensures RequestMove(cfg, b, r, c).value.after.requests == b.requests
  {
  }

  /** The engine's success or 404 sends the disable loop on to the unlink. */
  lemma SweepDeleted(cfg: Settings, b: Board, q: RequestId, c: Choice)
    requires Inv(cfg, b) && q in b.requests && b.requests[q].SweepDelete?
    requires c.DeleteCall? && !c.deleted.Failed? && Honest(b, b.requests[q].id, c.deleted)
    ensures var r := b.requests[q];
            var one := Step(cfg, b, Act(q, c));
            && one.Some? && one.value.store == b.store && q in one.value.requests
            && one.value.requests[q] == SweepUnlink(r.tenant, r.id, r.todo, r.pending)
  {
    assert RequestMove(cfg, b, b.requests[q], c) == DeleteMove(b, b.requests[q], c);
  }

  lemma SweepUnlinks(cfg: Settings, b: Board, q: RequestId)
    requires Inv(cfg, b) && q in b.requests && b.requests[q].SweepUnlink?
    ensures var r := b.requests[q];
            var two := Step(cfg, b, Act(q, Proceed));
            && two.Some? && two.value.store == Unlinked(b.store, r.tenant, r.id)
            && q in two.value.requests && two.value.requests[q] == Sweeping(r.tenant, r.todo, r.pending)
            && Gone(two.value, r.id)
  {
    assert RequestOk(b, b.requests[q]);
    assert RequestMove(cfg, b, b.requests[q], Proceed) == UnlinkMove(b, b.requests[q], Proceed);
  }

  /**
    A disable's delete answered by success or 404 gives back the slot the lease held: for
    a barred tenant whatever other requests and the environment do between the delete and
    the unlink, for any tenant when they do nothing.
   */
  lemma SweepShrinks(cfg: Settings, b: Board, q: RequestId, c: Choice, others: seq<Action>)
    requires Inv(cfg, b) && q in b.requests && b.requests[q].SweepDelete?
    requires c.DeleteCall? && !c.deleted.Failed? && Honest(b, b.requests[q].id, c.deleted)
    requires Link(b.requests[q].tenant, b.requests[q].id) in b.store.links
    requires Others(others, q)
    ensures var r := b.requests[q];
            var one := Step(cfg, b, Act(q, c));
            one.Some? &&
            var m := Run(cfg, one.value, others);
            m.Some? ==>
              var two := Step(cfg, m.value, Act(q, Proceed));
              && two.Some?
              && (others == [] || Barred(b.store, r.tenant) ==>
                    Occupancy(two.value.store, r.tenant) < Occupancy(b.store, r.tenant))
              && q in two.value.requests
              && two.value.requests[q] == Sweeping(r.tenant, r.todo, r.pending)
              && Gone(two.value, r.id)
  {
    hide Inv, Barred, Occupancy, Gone, RequestMove;
    var r := b.requests[q];
    SweepDeleted(cfg, b, q, c);
    StepKeeps(cfg, b, Act(q, c));
    var one := Step(cfg, b, Act(q, c)).value;
    if Run(cfg, one, others).Some? {
      var m := Run(cfg, one, others).value;
      Waiting(cfg, one, others, q, Link(r.tenant, r.id));
      SweepUnlinks(cfg, m, q);
      UnlinkedCount(m.store, r.tenant, r.id);
    }
  }

  /** Barred, and no reservation left: nothing can be provisioned for the tenant any more. */
  predicate Quiet(st: StoreState, t: TenantId) {
    Barred(st, t) && ReservationsOf(st, t) == {}
  }

  /** How far a sweep of the tenant accounts for the tunnels that are left. */
  ghost predicate SweepAccounts(b: Board, t: TenantId, r: Request)
    requires WellFormed(b)
  {
    r.tenant == t ==>
      match r
      case Sweeping(_, todo, pending) => LiveOf(b, t) + TunnelsOf(b.store, t) <= todo + pending
      case SweepDelete(_, id, todo, pending) => LiveOf(b, t) + TunnelsOf(b.store, t) <= todo + pending + {id}
      case SweepUnlink(_, id, todo, pending) =>
        id !in b.live && LiveOf(b, t) + TunnelsOf(b.store, t) <= todo + pending + {id}
      case SweepDone(_, pending) => LiveOf(b, t) + TunnelsOf(b.store, t) <= pending
      case _ => true
  }

  ghost predicate SweepsAccount(b: Board, t: TenantId)
    requires WellFormed(b)
  {
    forall q :: q in b.requests ==> SweepAccounts(b, t, b.requests[q])
  }

  lemma QuietCovered(cfg: Settings, b: Board, t: TenantId)
    requires Inv(cfg, b) && Quiet(b.store, t)
    ensures LiveOf(b, t) <= TunnelsOf(b.store, t)
  {
    forall id | id in LiveOf(b, t) ensures id in TunnelsOf(b.store, t) {
      assert b.origin[id] !in ReservationsOf(b.store, t);
      assert Link(t, id).tunnel == id;
    }
  }

  /** In a quiet tenant both the live tunnels and the links only ever shrink. */
  lemma QuietStep(cfg: Settings, b: Board, a: Action, t: TenantId)
    requires Inv(cfg, b) && Step(cfg, b, a).Some? && Quiet(b.store, t)
    ensures var d := Step(cfg, b, a).value;
            && Inv(cfg, d) && Quiet(d.store, t)
            && LiveOf(d, t) <= LiveOf(b, t)
            && d.store.links * LinksOf(d.store, t) <= b.store.links
  {
    var d := Step(cfg, b, a).value;
    StepKeeps(cfg, b, a);
    BarredStep(cfg, b, a, t);
    if a.Act? {
      QuietMove(cfg, b, b.requests[a.q], a.choice, t);
    }
    forall r | r in d.store.reservations ensures d.store.reservations[r].tenant != t {
      if r in b.store.reservations {
        assert r !in ReservationsOf(b.store, t);
        assert b.homes[r] == b.store.reservations[r].tenant;
        assert d.homes[r] == b.homes[r];
      }
    }
    assert forall r :: r in b.inbox ==> r in b.store.reservations && b.homes[r] == d.homes[r];
    forall id | id in LiveOf(d, t) ensures id in LiveOf(b, t) {
      assert d.origin[id] !in ReservationsOf(b.store, t);
    }
  }

  /** The tenant gets no link and no reservation it did not have. */
  ghost predicate NothingNew(st: StoreState, after: StoreState, t: TenantId) {
    && (forall l :: l in after.links && l.tenant == t ==> l in st.links)
    && (forall x :: x in after.reservations && x !in st.reservations ==> after.reservations[x].tenant != t)
  }

  lemma QuietFinalize(b: Board, r: Request, c: Choice, t: TenantId)
    requires FinalizeMove(b, r, c).Some? && Quiet(b.store, t)
    ensures NothingNew(b.store, FinalizeMove(b, r, c).value.after.store, t)
  {
    if r.Completing? {
      assert r.res !in ReservationsOf(b.store, t);
    }
  }

  lemma QuietMove(cfg: Settings, b: Board, r: Request, c: Choice, t: TenantId)
    requires RequestMove(cfg, b, r, c).Some? && Quiet(b.store, t)
    ensures NothingNew(b.store, RequestMove(cfg, b, r, c).value.after.store, t)
  {
    if r.Noting? || r.Completing? || r.Releasing? {
      if c != Die { QuietFinalize(b, r, c, t); }
    } else if r.Reserving? {
      QuietReserve(cfg, b, r, c, t);
    } else if !Unlinking(r) {
      SlotsUntouched(cfg, b, r, c);
    }
  }

  lemma QuietReserve(cfg: Settings, b: Board, r: Request, c: Choice, t: TenantId)
    requires RequestMove(cfg, b, r, c).Some? && r.Reserving? && Quiet(b.store, t)
    ensures NothingNew(b.store, RequestMove(cfg, b, r, c).value.after.store, t)
  {
  }

  /** Fewer live tunnels and links leave another request's account of them intact. */
  lemma SweepFramed(b: Board, d: Board, t: TenantId, r: Request)
    requires WellFormed(b) && WellFormed(d) && RequestOk(b, r) && SweepAccounts(b, t, r)
    requires LiveOf(d, t) <= LiveOf(b, t) && TunnelsOf(d.store, t) <= TunnelsOf(b.store, t)
    requires forall id :: id in b.issued && id in d.live ==> id in b.live
    ensures SweepAccounts(d, t, r)
  {
  }

  lemma LinksShrink(b: Board, d: Board, t: TenantId)
    requires d.store.links * LinksOf(d.store, t) <= b.store.links
    ensures TunnelsOf(d.store, t) <= TunnelsOf(b.store, t)
  {
    forall id | id in TunnelsOf(d.store, t) ensures id in TunnelsOf(b.store, t) {
      assert Link(t, id) in d.store.links * LinksOf(d.store, t);
      assert Link(t, id).tunnel == id;
    }
  }

  /** A step leaves every request but its own where it was. */
  lemma OthersStand(cfg: Settings, b: Board, a: Action, q: RequestId)
    requires Inv(cfg, b) && Step(cfg, b, a).Some? && !(a.Act? && a.q == q)
    requires q in b.requests && q in Step(cfg, b, a).value.requests
    ensures Step(cfg, b, a).value.requests[q] == b.requests[q]
  {
    if a.Act? {
      RequestMoveOk(cfg, b, b.requests[a.q], a.choice);
    } else if !a.Arrive? {
      EnvironmentKeeps(cfg, b, a);
    }
  }

  lemma Newcomers(cfg: Settings, b: Board, a: Action, q: RequestId)
    requires Inv(cfg, b) && Step(cfg, b, a).Some?
    requires q !in b.requests && q in Step(cfg, b, a).value.requests
    ensures var r := Step(cfg, b, a).value.requests[q]; r.ReadScope? || r.Disabling?
  {
    if a.Act? {
      RequestMoveOk(cfg, b, b.requests[a.q], a.choice);
    } else if !a.Arrive? {
      EnvironmentKeeps(cfg, b, a);
    }
  }

  lemma SweepStep(cfg: Settings, b: Board, a: Action, t: TenantId)
    requires Inv(cfg, b) && Step(cfg, b, a).Some? && Quiet(b.store, t) && SweepsAccount(b, t)
    ensures var d := Step(cfg, b, a).value;
            Inv(cfg, d) && Quiet(d.store, t) && SweepsAccount(d, t)
  {
    var d := Step(cfg, b, a).value;
    QuietStep(cfg, b, a, t);
    StepKeeps(cfg, b, a);
    LinksShrink(b, d, t);
    forall q | q in d.requests ensures SweepAccounts(d, t, d.requests[q]) {
      if a.Act? && q == a.q {
        SweepOwnStep(cfg, b, q, a.choice, t);
      } else if q in b.requests {
        OthersStand(cfg, b, a, q);
        SweepFramed(b, d, t, b.requests[q]);
      } else {
        Newcomers(cfg, b, a, q);
      }
    }
  }

  lemma SweepReadStep(cfg: Settings, b: Board, r: Request, c: Choice, t: TenantId)
    requires Inv(cfg, b) && Quiet(b.store, t) && r == ReadingOwned(t)
    requires RequestMove(cfg, b, r, c).Some?
    ensures var m := RequestMove(cfg, b, r, c).value;
            m.after == b && (m.next.Some? ==> SweepAccounts(b, t, m.next.value))
  {
    QuietCovered(cfg, b, t);
  }

  lemma SweepDeleteStep(b: Board, r: Request, c: Choice, t: TenantId)
    requires WellFormed(b) && r.SweepDelete? && r.tenant == t && SweepAccounts(b, t, r)
    requires DeleteMove(b, r, c).Some?
    ensures var m := DeleteMove(b, r, c).value;
            WellFormed(m.after) && SweepAccounts(m.after, t, m.next.value)
  {
    var m := DeleteMove(b, r, c).value;
    assert WellFormed(m.after) && m.after.live <= b.live && m.after.store == b.store;
    assert LiveOf(m.after, t) <= LiveOf(b, t);
  }

  lemma SweepUnlinkStep(b: Board, r: Request, t: TenantId)
    requires WellFormed(b) && r.SweepUnlink? && r.tenant == t && SweepAccounts(b, t, r)
    ensures var m := b.(store := Unlinked(b.store, t, r.id));
            WellFormed(m) && SweepAccounts(m, t, Sweeping(t, r.todo, r.pending))
  {
    var m := b.(store := Unlinked(b.store, t, r.id));
    assert WellFormed(m);
    assert r.id !in LiveOf(m, t);
    assert r.id !in TunnelsOf(m.store, t);
    assert LiveOf(m, t) <= LiveOf(b, t);
    assert TunnelsOf(m.store, t) <= TunnelsOf(b.store, t);
  }

  predicate IsSweep(r: Request) {
    r.ReadingOwned? || r.Sweeping? || r.SweepDelete? || r.SweepUnlink? || r.SweepDone?
  }

  lemma OutsideSweep(cfg: Settings, b: Board, r: Request, c: Choice)
    requires RequestMove(cfg, b, r, c).Some? && RequestMove(cfg, b, r, c).value.next.Some?
    ensures var n := RequestMove(cfg, b, r, c).value.next.value;
            n.tenant == r.tenant && (!IsSweep(r) ==> !IsSweep(n) || n.ReadingOwned?)
  {
    if r.Reserving? || r.Sending? || r.Awaiting? || r.Noting? || r.Completing? || r.Releasing? {
      CreateOutsideSweep(cfg, b, r, c);
    }
  }

  lemma CreateOutsideSweep(cfg: Settings, b: Board, r: Request, c: Choice)
    ensures var m := ProvisionMove(cfg, b, r, c);
            m.Some? && m.value.next.Some? ==> m.value.next.value.tenant == r.tenant && !IsSweep(m.value.next.value)
    ensures var m := FinalizeMove(b, r, c);
            m.Some? && m.value.next.Some? ==> m.value.next.value.tenant == r.tenant && !IsSweep(m.value.next.value)
  {
  }

  lemma SweepMove(cfg: Settings, b: Board, r: Request, c: Choice, t: TenantId)
    requires Inv(cfg, b) && Quiet(b.store, t) && SweepAccounts(b, t, r)
    requires RequestMove(cfg, b, r, c).Some? && RequestMove(cfg, b, r, c).value.next.Some?
    requires WellFormed(RequestMove(cfg, b, r, c).value.after)
    ensures var m := RequestMove(cfg, b, r, c).value; SweepAccounts(m.after, t, m.next.value)
  {
    if r.tenant == t && IsSweep(r) {
      if r.ReadingOwned? { SweepReadStep(cfg, b, r, c, t); }
      else if r.SweepDelete? { SweepDeleteStep(b, r, c, t); }
      else if r.SweepUnlink? { SweepUnlinkStep(b, r, t); }
    } else {
      OutsideSweep(cfg, b, r, c);
    }
  }

  lemma SweepOwnStep(cfg: Settings, b: Board, q: RequestId, c: Choice, t: TenantId)
    requires Inv(cfg, b) && q in b.requests && Quiet(b.store, t) && SweepAccounts(b, t, b.requests[q])
    requires Step(cfg, b, Act(q, c)).Some?
    ensures var d := Step(cfg, b, Act(q, c)).value;
            Inv(cfg, d) && (q in d.requests ==> SweepAccounts(d, t, d.requests[q]))
  {
    StepKeeps(cfg, b, Act(q, c));
    var r := b.requests[q];
    RequestMoveOk(cfg, b, r, c);
    var m := RequestMove(cfg, b, r, c).value;
    if m.next.Some? {
      SweepMove(cfg, b, r, c, t);
      SweepSameWorld(m.after, Step(cfg, b, Act(q, c)).value, t, m.next.value);
    }
  }

  lemma SweepSameWorld(m: Board, d: Board, t: TenantId, r: Request)
    requires WellFormed(m) && WellFormed(d) && d.(requests := m.requests) == m && SweepAccounts(m, t, r)
    ensures SweepAccounts(d, t, r)
  {
    assert LiveOf(d, t) == LiveOf(m, t);
  }

  lemma {:induction false} QuietRun(cfg: Settings, b: Board, actions: seq<Action>, t: TenantId)
    requires Inv(cfg, b) && Run(cfg, b, actions).Some? && Quiet(b.store, t) && SweepsAccount(b, t)
    ensures var d := Run(cfg, b, actions).value; Inv(cfg, d) && Quiet(d.store, t) && SweepsAccount(d, t)
    ensures LiveOf(Run(cfg, b, actions).value, t) <= LiveOf(b, t)
    ensures TunnelsOf(Run(cfg, b, actions).value.store, t) <= TunnelsOf(b.store, t)
  {
    hide Inv, Quiet, SweepsAccount, LiveOf, TunnelsOf, LinksOf, Step;
    if actions != [] {
      var init, a := actions[..|actions| - 1], actions[|actions| - 1];
      QuietRun(cfg, b, init, t);
      var m := Run(cfg, b, init).value;
      SweepStep(cfg, m, a, t);
      QuietStep(cfg, m, a, t);
      LinksShrink(m, Step(cfg, m, a).value, t);
    }
  }

  /**
    Once the tenant is disabled, no request is in flight and no reservation of its is left,
    any disable call that ends with nothing pending has left the tenant no live tunnel and
    no lease, whatever else ran meanwhile; and none ever comes back.
   */
  lemma DisableEmpties(cfg: Settings, b: Board, actions: seq<Action>, q: RequestId, t: TenantId, later: seq<Action>)
    requires Inv(cfg, b) && b.requests == map[] && Quiet(b.store, t)
    requires Run(cfg, b, actions).Some? && Run(cfg, Run(cfg, b, actions).value, later).Some?
    requires var d := Run(cfg, b, actions).value;
             q in d.requests && d.requests[q] == SweepDone(t, {})
    ensures var d := Run(cfg, b, actions).value;
            && Inv(cfg, d) && LiveOf(d, t) == {} && TunnelsOf(d.store, t) == {}
            && Inv(cfg, Run(cfg, d, later).value)
            && LiveOf(Run(cfg, d, later).value, t) == {}
            && TunnelsOf(Run(cfg, d, later).value.store, t) == {}
  {
    QuietRun(cfg, b, actions, t);
    var d := Run(cfg, b, actions).value;
    assert SweepAccounts(d, t, d.requests[q]);
    QuietRun(cfg, d, later, t);
  }

  /** The engine answered none of the deletes of request `q` with anything but success or 404. */
  predicate NoDeleteFailed(actions: seq<Action>, q: RequestId) {
    forall a :: a in actions ==> !(a.Act? && a.q == q && a.choice.DeleteCall? && a.choice.deleted.Failed?)
  }

  predicate NothingPending(r: Request) {
    r.Sweeping? || r.SweepDelete? || r.SweepUnlink? || r.SweepDone? ==> r.pending == {}
  }

  lemma PendingNeedsFailure(cfg: Settings, b: Board, r: Request, c: Choice)
    requires RequestMove(cfg, b, r, c).Some? && NothingPending(r) && !(c.DeleteCall? && c.deleted.Failed?)
    ensures var n := RequestMove(cfg, b, r, c).value.next; n.Some? ==> NothingPending(n.value)
  {
  }

  /** A disable call none of whose deletes failed has nothing to report as pending. */
  lemma {:induction false} NoFailureNoPending(cfg: Settings, b: Board, actions: seq<Action>, q: RequestId)
    requires Inv(cfg, b) && Run(cfg, b, actions).Some? && NoDeleteFailed(actions, q)
    requires q in b.requests ==> NothingPending(b.requests[q])
    ensures var d := Run(cfg, b, actions).value; Inv(cfg, d) && (q in d.requests ==> NothingPending(d.requests[q]))
  {
    if actions != [] {
      var init, a := actions[..|actions| - 1], actions[|actions| - 1];
      assert actions == init + [a];
      NoFailureNoPending(cfg, b, init, q);
      var m := Run(cfg, b, init).value;
      StepKeeps(cfg, m, a);
      PendingStep(cfg, m, a, q);
    }
  }

  lemma PendingStep(cfg: Settings, m: Board, a: Action, q: RequestId)
    requires Inv(cfg, m) && Step(cfg, m, a).Some?
    requires q in m.requests ==> NothingPending(m.requests[q])
    requires !(a.Act? && a.q == q && a.choice.DeleteCall? && a.choice.deleted.Failed?)
    ensures var d := Step(cfg, m, a).value; q in d.requests ==> NothingPending(d.requests[q])
  {
    if q in Step(cfg, m, a).value.requests {
      if a.Act? && a.q == q {
        PendingNeedsFailure(cfg, m, m.requests[q], a.choice);
      } else if q in m.requests {
        OthersStand(cfg, m, a, q);
      } else {
        Newcomers(cfg, m, a, q);
      }
    }
  }

  /**
    The promise of `admin_disable`: once the tenant is disabled, nothing is in flight and no
    reservation of its is stranded, a disable call all of whose deletes are answered with
    success or 404 ends with the tenant owning nothing and no tunnel of its alive.
   */
  lemma CleanDisableEmpties(cfg: Settings, b: Board, actions: seq<Action>, q: RequestId, t: TenantId,
                            pending: set<TunnelId>)
    requires Inv(cfg, b) && b.requests == map[] && Quiet(b.store, t)
    requires Run(cfg, b, actions).Some? && NoDeleteFailed(actions, q)
    requires q in Run(cfg, b, actions).value.requests
    requires Run(cfg, b, actions).value.requests[q] == SweepDone(t, pending)
    ensures var d := Run(cfg, b, actions).value;
            pending == {} && Inv(cfg, d) && LiveOf(d, t) == {} && TunnelsOf(d.store, t) == {}
  {
    NoFailureNoPending(cfg, b, actions, q);
    assert Run(cfg, Run(cfg, b, actions).value, []) == Some(Run(cfg, b, actions).value);
    DisableEmpties(cfg, b, actions, q, t, []);
  }
}
