/**
  The tenant-facing handlers as programs over the shared store and engine. Before every
  store or engine call the handler waits while any other requests and the environment
  take any steps they can; then the environment answers the call. Each call is one step
  of the lease protocol, so whatever a handler does is a run of that protocol.
 */
module ControlCenter {
  import opened Wrappers
  import opened TenancyStore
  import opened LeaseProtocol
  import opened LeaseSafety

  /** What happens while a handler waits for a call, and how the call comes out. */
  datatype Turn = Turn(others: seq<Action>, outcome: Choice)

  /** How `tunnels_for_tenant` ends: the request is over after anything but `Read`. */
  datatype ReadResult = Read(leases: set<TunnelId>) | EngineDown | StoreRaised

  datatype CreateOutcome =
    | Unread                          // the lease listing failed: nothing was reserved
    | Refused                         // disabled, out of credits or at the cap
    | ReserveRaised
    | EngineRejected                  // 4xx
    | Uncertain                       // lost reply, 5xx or a success without an id
    | Leased(id: TunnelId)
    | DisabledMeanwhile(id: TunnelId)
    | FinalizeFailed(id: TunnelId, removed: bool)
    | ReleaseRaised

  datatype DeleteOutcome = NoSuchLease | LeaseDeleted | DeleteFailed

  /** A store call's step: it proceeds, or raises as the environment says. */
  function StoreChoice(c: Choice): Choice {
    if c.StoreFault? then c else Proceed
  }

  /** A handler step that touches neither store nor engine. */
  function AfterLocal(r: Request, c: Choice): Option<Request> {
    match r
    case Tombstones(t, dead, leases, next) =>
      if c.Take? then Some(UnlinkTombstone(t, c.id, dead - {c.id}, leases, next))
      else if next.CreateLease? then Some(Reserving(t))
      else if next.DeleteLease? && next.id in leases then Some(DeletingLease(t, next.id))
      else None
    case Sweeping(t, todo, pending) =>
      if c.Take? then Some(SweepDelete(t, c.id, todo - {c.id}, pending)) else Some(SweepDone(t, pending))
    case _ => None
  }

  predicate LocalChoice(r: Request, c: Choice) {
    match r
    case Tombstones(_, dead, _, _) => (c.Take? && c.id in dead) || (c == Proceed && dead == {})
    case Sweeping(_, todo, _) => (c.Take? && c.id in todo) || (c == Proceed && todo == {})
    case SweepDone(_, _) => c == Proceed
    case _ => false
  }

  /** A run grows by a step. */
  lemma RunAppend(cfg: Settings, before: seq<Action>, a: Action)
    ensures Run(cfg, EMPTY, before + [a]) ==
            var b := Run(cfg, EMPTY, before); if b.None? then None else Step(cfg, b.value, a)
  {
    assert (before + [a])[..|before|] == before;
  }

  lemma RunInv(cfg: Settings, log: seq<Action>, b: Board)
    requires Run(cfg, EMPTY, log) == Some(b)
    ensures Inv(cfg, b) && Converted(b)
  {
    assert Reachable(cfg, b);
    ReachableInv(cfg, b);
    ReachableConverted(cfg, b);
  }

  /** The engine made this tunnel for this reservation of this tenant. */
  ghost predicate Provisioned(b: Board, t: TenantId, res: ReservationId, id: TunnelId) {
    Made(b, res, id) && res in b.homes && b.homes[res] == t
  }

  /** A tunnel the engine made is, while it lives, owned or still reserved for. */
  lemma Accounted(cfg: Settings, b: Board, t: TenantId, res: ReservationId, id: TunnelId)
    requires Inv(cfg, b) && Provisioned(b, t, res, id)
    ensures id in b.live ==> Link(t, id) in b.store.links || res in b.store.reservations
  {
  }

  /** A request at `r` accounts for what is left of a tenant that can get nothing new. */
  ghost predicate Accounting(cfg: Settings, b: Board, t: TenantId, r: Request) {
    Inv(cfg, b) && Quiet(b.store, t) && SweepAccounts(b, t, r)
  }

  /** A request that sweeps nothing accounts for a quiet tenant whatever is left of it. */
  lemma NotSweeping(cfg: Settings, b: Board, t: TenantId, r: Request)
    requires Inv(cfg, b) && Quiet(b.store, t) && (IsSweep(r) ==> r.ReadingOwned?)
    ensures Accounting(cfg, b, t, r)
  {
  }

  /** What survives any step for the handler of a request that stands at `r`, then at `next`. */
  ghost predicate Carries(cfg: Settings, b: Board, d: Board, r: Request, next: Option<Request>) {
    && Inv(cfg, b) && Inv(cfg, d)
    && (forall id :: Gone(b, id) ==> Gone(d, id))
    && (forall l :: Used(b, l) ==> Used(d, l) && (l in d.store.links ==> l in b.store.links))
    && (forall t, res, id :: Provisioned(b, t, res, id) ==> Provisioned(d, t, res, id))
    && b.store.tenants.Keys <= d.store.tenants.Keys
    && (forall t :: Barred(b.store, t) ==> Barred(d.store, t))
    && (forall t :: Accounting(cfg, b, t, r) ==> Quiet(d.store, t))
    && (next.Some? ==> forall t :: Accounting(cfg, b, t, r) ==> Accounting(cfg, d, t, next.value))
  }

  /** No step deletes a tenant. */
  lemma TenantsStay(cfg: Settings, b: Board, a: Action)
    requires Step(cfg, b, a).Some?
    ensures b.store.tenants.Keys <= Step(cfg, b, a).value.store.tenants.Keys
  {
    if a.Act? && !b.requests[a.q].Disabling? {
      SameTenants(cfg, b, b.requests[a.q], a.choice);
    }
  }

  lemma OtherCarries(cfg: Settings, b: Board, q: RequestId, a: Action)
    requires Inv(cfg, b) && q in b.requests && Step(cfg, b, a).Some?
    requires !(a.Act? && a.q == q)
    ensures var d := Step(cfg, b, a).value;
            && q in d.requests && d.requests[q] == b.requests[q]
            && Carries(cfg, b, d, b.requests[q], Some(b.requests[q]))
  {
    hide Step, Used, Barred, Accounting, Quiet;
    var d := Step(cfg, b, a).value;
    StepKeeps(cfg, b, a);
    TenantsStay(cfg, b, a);
    StaysInFlight(cfg, b, a, q);
    forall l | Used(b, l) ensures Used(d, l) && (l in d.store.links ==> l in b.store.links) {
      UsedStep(cfg, b, a, l);
      if l !in b.store.links { ClearedStep(cfg, b, a, l); }
    }
    forall t | Barred(b.store, t) ensures Barred(d.store, t) {
      BarredStep(cfg, b, a, t);
    }
    forall t | Accounting(cfg, b, t, b.requests[q]) ensures Accounting(cfg, d, t, b.requests[q]) {
      OtherAccounts(cfg, b, q, a, t);
    }
    AccountingIsQuiet(cfg, d, b.requests[q]);
  }

  lemma AccountingIsQuiet(cfg: Settings, b: Board, r: Request)
    ensures forall t :: Accounting(cfg, b, t, r) ==> Quiet(b.store, t)
  {
  }

  lemma OtherAccounts(cfg: Settings, b: Board, q: RequestId, a: Action, t: TenantId)
    requires Inv(cfg, b) && q in b.requests && Step(cfg, b, a).Some? && Accounting(cfg, b, t, b.requests[q])
    ensures Accounting(cfg, Step(cfg, b, a).value, t, b.requests[q])
  {
    hide Step, LiveOf, TunnelsOf, Quiet, SweepAccounts;
    var d := Step(cfg, b, a).value;
    assert RequestOk(b, b.requests[q]);
    StepKeeps(cfg, b, a);
    QuietStep(cfg, b, a, t);
    LinksShrink(b, d, t);
    SweepFramed(b, d, t, b.requests[q]);
  }

  lemma OwnCarries(cfg: Settings, b: Board, q: RequestId, c: Choice)
    requires Inv(cfg, b) && q in b.requests && Step(cfg, b, Act(q, c)).Some?
    ensures var d := Step(cfg, b, Act(q, c)).value;
            Carries(cfg, b, d, b.requests[q], if q in d.requests then Some(d.requests[q]) else None)
  {
    var d := Step(cfg, b, Act(q, c)).value;
    StepKeeps(cfg, b, Act(q, c));
    TenantsStay(cfg, b, Act(q, c));
    forall l | Used(b, l) ensures Used(d, l) && (l in d.store.links ==> l in b.store.links) {
      UsedStep(cfg, b, Act(q, c), l);
      if l !in b.store.links { ClearedStep(cfg, b, Act(q, c), l); }
    }
    forall t | Barred(b.store, t) ensures Barred(d.store, t) {
      BarredStep(cfg, b, Act(q, c), t);
    }
    forall t | Accounting(cfg, b, t, b.requests[q])
      ensures Quiet(d.store, t) && (q in d.requests ==> Accounting(cfg, d, t, d.requests[q]))
    {
      QuietStep(cfg, b, Act(q, c), t);
      SweepOwnStep(cfg, b, q, c, t);
    }
  }

  lemma CarriesTransitive(cfg: Settings, b: Board, d: Board, e: Board, r: Request)
    requires Carries(cfg, b, d, r, Some(r)) && Carries(cfg, d, e, r, Some(r))
    ensures Carries(cfg, b, e, r, Some(r))
  {
  }

  /** A request that ends on an unknown outcome leaves its reservation to nobody. */
  lemma LeftStranded(cfg: Settings, b: Board, d: Board, q: RequestId, t: TenantId, res: ReservationId)
    requires Inv(cfg, b) && q in b.requests && b.requests[q] == Awaiting(t, res)
    requires d.store == b.store && d.requests == b.requests - {q}
    ensures Stranded(d, res)
  {
    hide Covered, Capped;
    assert RequestOk(b, b.requests[q]);
    assert Held(b.requests[q]) == Some(res);
  }

  lemma NotingProvisioned(cfg: Settings, b: Board, q: RequestId)
    requires Inv(cfg, b) && q in b.requests && b.requests[q].Noting?
    ensures var r := b.requests[q]; Provisioned(b, r.tenant, r.res, r.id)
  {
    assert RequestOk(b, b.requests[q]);
  }

  /** All these ids were the tenant's leases at one time or another. */
  ghost predicate AllUsed(b: Board, t: TenantId, ids: set<TunnelId>) {
    forall id :: id in ids ==> Used(b, Link(t, id))
  }

  /** None of these ids is a live tunnel or a lease of the tenant, nor can it be one again. */
  ghost predicate AllCleared(b: Board, t: TenantId, ids: set<TunnelId>) {
    forall id :: id in ids ==> Gone(b, id) && Cleared(b, Link(t, id))
  }

  lemma OneMoreCleared(b: Board, t: TenantId, gone: set<TunnelId>, dead: set<TunnelId>, id: TunnelId)
    requires AllCleared(b, t, gone - dead) && AllCleared(b, t, {id})
    ensures AllCleared(b, t, gone - (dead - {id}))
  {
  }

  /** What the tenant owns stands in rows that came out of reservations. */
  lemma OwnedUsed(b: Board, t: TenantId)
    requires Converted(b)
    ensures AllUsed(b, t, TunnelsOf(b.store, t))
  {
    forall id | id in TunnelsOf(b.store, t) ensures Used(b, Link(t, id)) {
      assert Link(t, id) in b.store.links;
    }
  }

  /** The state when the first `n` actions had happened. */
  ghost function History(cfg: Settings, log: seq<Action>, n: nat): Board
    requires n <= |log|
  {
    var past := Run(cfg, EMPTY, log[..n]);
    if past.Some? then past.value else EMPTY
  }

  /** The past does not change. */
  lemma HistoryStays(cfg: Settings, past: seq<Action>, b: Board, log: seq<Action>)
    requires past <= log && Run(cfg, EMPTY, past) == Some(b)
    ensures History(cfg, log, |past|) == b
  {
    assert log[..|past|] == past;
  }

  /** Each of these ids is gone from the engine, or still pending. */
  ghost predicate GoneBut(b: Board, ids: set<TunnelId>, pending: set<TunnelId>) {
    forall id :: id in ids ==> id in pending || Gone(b, id)
  }

  lemma OneMoreGone(b: Board, d: Board, done: set<TunnelId>, id: TunnelId, pending: set<TunnelId>, kept: set<TunnelId>)
    requires GoneBut(b, done, pending) && pending <= kept
    requires forall x :: Gone(b, x) ==> Gone(d, x)
    requires id in kept || Gone(d, id)
    ensures GoneBut(d, done + {id}, kept)
  {
  }

  lemma NothingSwept(b: Board, owned: set<TunnelId>)
    ensures GoneBut(b, owned - owned, {})
  {
  }

  lemma HistoryKept(cfg: Settings, past: seq<Action>, log: seq<Action>, n: nat)
    requires past <= log && n <= |past|
    ensures History(cfg, log, n) == History(cfg, past, n)
  {
    assert log[..n] == past[..n];
  }

  lemma NothingCleared(b: Board, t: TenantId, live: set<TunnelId>)
    ensures AllCleared(b, t, {} - live)
  {
  }

  class Center {
    const cfg: Settings
    const store: TenantsStore
    const env: nat -> Turn
    var tick: nat
    var live: set<TunnelId>
    var issued: set<TunnelId>
    var inbox: set<ReservationId>
    var origin: map<TunnelId, ReservationId>
    var homes: map<ReservationId, TenantId>
    var requests: map<RequestId, Request>
    /** Everything that happened so far. */
    ghost var log: seq<Action>

    function World(): Board
      reads this, store
    {
      Board(store.View(), live, issued, inbox, origin, homes, requests)
    }

    /** The present state is the outcome of a run of the protocol. */
    ghost predicate Valid()
      reads this, store
    {
      Run(cfg, EMPTY, log) == Some(World())
    }

    constructor (cfg: Settings, env: nat -> Turn)
      ensures Valid() && World() == EMPTY && fresh(store)
    {
      this.cfg, this.env := cfg, env;
      store := new TenantsStore();
      tick, live, issued, inbox := 0, {}, {}, {};
      origin, homes, requests, log := map[], map[], map[], [];
    }

    /** Request `q` stands at `next`, or is over. */
    predicate Placed(q: RequestId, next: Option<Request>)
      reads this
    {
      if next.Some? then q in requests && requests[q] == next.value else q !in requests
    }

    /** One step of request `q` was taken; it now stands at `next`. */
    twostate predicate Moved(q: RequestId, next: Option<Request>)
      reads this, store
    {
      && Valid() && Inv(cfg, World()) && Placed(q, next) && old(log) <= log
      && old(q in requests) && Carries(cfg, old(World()), World(), old(requests[q]), next)
    }

    method Become(b: Board, ghost a: Action)
      modifies this, store
      ensures World() == b && log == old(log) + [a] && tick == old(tick)
    {
      store.tenants, store.ledger := b.store.tenants, b.store.ledger;
      store.links, store.reservations := b.store.links, b.store.reservations;
      live, issued, inbox := b.live, b.issued, b.inbox;
      origin, homes, requests := b.origin, b.homes, b.requests;
      log := log + [a];
    }

    /** Record that request `q` took a step whose effect on tables and engine is done. */
    method Advance(q: RequestId, c: Choice, before: Board)
      requires q in before.requests && RequestMove(cfg, before, before.requests[q], c).Some?
      requires World() == RequestMove(cfg, before, before.requests[q], c).value.after
      requires requests == before.requests && Run(cfg, EMPTY, log) == Some(before)
      modifies this`requests, this`log
      ensures Valid() && Step(cfg, before, Act(q, c)) == Some(World()) && log == old(log) + [Act(q, c)]
      ensures Placed(q, RequestMove(cfg, before, before.requests[q], c).value.next)
      ensures Carries(cfg, before, World(), before.requests[q],
                      RequestMove(cfg, before, before.requests[q], c).value.next)
    {
      requests := At(before, q, RequestMove(cfg, before, before.requests[q], c).value.next).requests;
      log := log + [Act(q, c)];
      RunAppend(cfg, old(log), Act(q, c));
      RunInv(cfg, old(log), before);
      OwnCarries(cfg, before, q, c);
    }

    predicate Concerns(a: Action, q: RequestId) {
      a.Act? && a.q == q
    }

    /** Let everyone else run, then learn the environment's answer to the coming call. */
    method Wait(q: RequestId) returns (c: Choice)
      requires Valid() && q in requests
      modifies this, store
      ensures Moved(q, Some(old(requests[q])))
    {
      var turn := env(tick);
      tick := tick + 1;
      RunInv(cfg, log, World());
      for i := 0 to |turn.others|
        invariant Moved(q, Some(old(requests[q])))
      {
        var a := turn.others[i];
        var next := Step(cfg, World(), a);
        if !Concerns(a, q) && next.Some? {
          OtherCarries(cfg, World(), q, a);
          ghost var before, was := log, World();
          Become(next.value, a);
          RunAppend(cfg, before, a);
          CarriesTransitive(cfg, old(World()), was, World(), requests[q]);
        }
      }
      c := turn.outcome;
    }

    // ----- The calls a handler makes -----

    /** A request enters. */
    method Enter(q: RequestId, r: Request)
      requires Valid() && q !in requests && MayArrive(World(), r)
      modifies this`requests, this`log
      ensures Valid() && Placed(q, Some(r)) && Inv(cfg, World()) && log == old(log) + [Arrive(q, r)]
    {
      ghost var before, was := log, World();
      requests := requests[q := r];
      log := log + [Arrive(q, r)];
      RunAppend(cfg, before, Arrive(q, r));
      RunInv(cfg, log, World());
    }

    /** A handler step that touches neither store nor engine. */
    method Local(q: RequestId, c: Choice)
      requires Valid() && q in requests && LocalChoice(requests[q], c)
      modifies this`requests, this`log
      ensures Moved(q, AfterLocal(old(requests[q]), c))
    {
      Advance(q, c, World());
    }

    /** `store.tunnels_of`, at the head of a lease read; none when it raises. */
    method ScopeCall(q: RequestId, t: TenantId, next: Followup, c: Choice)
      returns (ids: Option<set<TunnelId>>)
      requires Valid() && q in requests && requests[q] == ReadScope(t, next)
      modifies this`requests, this`log
      ensures Moved(q, if ids.None? then None
                       else Some(if ids.value == {} then Tombstones(t, {}, {}, next)
                                 else ListEngine(t, ids.value, next)))
      ensures ids.Some? ==> ids.value == TunnelsOf(old(store.View()), t) && AllUsed(World(), t, ids.value)
    {
      var found := store.GetTunnelsOf(t);
      SameTunnels(t, found);
      RunInv(cfg, log, World());
      OwnedUsed(World(), t);
      ids := if c.StoreFault? then None else Some(found);
      Advance(q, StoreChoice(c), World());
    }

    lemma SameTunnels(t: TenantId, found: set<TunnelId>)
      requires forall id :: id in found <==> Link(t, id) in store.links
      ensures found == TunnelsOf(store.View(), t)
    {
      forall id ensures id in found <==> id in TunnelsOf(store.View(), t) {
        assert Link(t, id).tunnel == id;
      }
    }

    /** `store.tunnels_of`, in the disable handler. */
    method OwnedCall(q: RequestId, t: TenantId, c: Choice) returns (ids: Option<set<TunnelId>>)
      requires Valid() && q in requests && requests[q] == ReadingOwned(t)
      modifies this`requests, this`log
      ensures Moved(q, if ids.None? then None else Some(Sweeping(t, ids.value, {})))
      ensures ids.Some? ==> ids.value == TunnelsOf(old(store.View()), t)
    {
      var found := store.GetTunnelsOf(t);
      SameTunnels(t, found);
      ids := if c.StoreFault? then None else Some(found);
      Advance(q, StoreChoice(c), World());
    }

    /** `engine.tunnels`: the ids of all the engine's tunnels, or an engine error. */
    method EngineTunnels(q: RequestId, t: TenantId, scope: set<TunnelId>, next: Followup, c: Choice)
      returns (listing: Option<set<TunnelId>>)
      requires Valid() && q in requests && requests[q] == ListEngine(t, scope, next)
      modifies this`requests, this`log
      ensures Moved(q, if listing.None? then None
                       else Some(Tombstones(t, scope - listing.value, scope * listing.value, next)))
      ensures listing.Some? ==> listing.value == live == old(live)
    {
      listing := if c == ListFault then None else Some(live);
      Advance(q, if c == ListFault then c else Proceed, World());
    }

    method UnlinkCall(q: RequestId, t: TenantId, id: TunnelId, c: Choice) returns (raised: bool)
      requires Valid() && q in requests && Unlinking(requests[q])
      requires requests[q].tenant == t && requests[q].id == id
      modifies this`requests, this`log, store`links
      ensures Moved(q, AfterUnlink(old(requests[q]), raised))
      ensures !raised ==> Link(t, id) !in store.links
    {
      var before := World();
      raised := c.StoreFault?;
      if !raised || c.committed {
        store.UnlinkTunnel(t, id);
      }
      Advance(q, StoreChoice(c), before);
    }

    /** The engine's answer to a delete: 404 only for a missing tunnel, nonsense is an error. */
    method DeleteCallTo(q: RequestId, id: TunnelId, c: Choice) returns (reply: DeleteReply)
      requires Valid() && q in requests && Deleting(requests[q]) && requests[q].id == id
      modifies this`requests, this`log, this`live
      ensures Moved(q, AfterDelete(old(requests[q]), reply))
      ensures !reply.Failed? && !old(requests[q]).DeletingLease? ==> Gone(World(), id)
      ensures reply == Deleted ==> Gone(World(), id)
    {
      hide Carries, Converted, Covered, Capped, Exclusive, RequestsOk;
      var before := World();
      RunInv(cfg, log, before);
      KnownId(before, requests[q]);
      reply := if c.DeleteCall? && (c.deleted == Missing ==> id !in live) then c.deleted else Failed(false);
      if reply == Deleted || (reply.Failed? && reply.removed) {
        live := live - {id};
      }
      Advance(q, DeleteCall(reply), before);
    }

    lemma KnownId(b: Board, r: Request)
      requires Inv(cfg, b) && Deleting(r) && (exists q :: q in b.requests && b.requests[q] == r)
      ensures r.id in b.issued
    {
      assert RequestOk(b, r);
    }

    /** `store.reserve_tunnel`; a colliding uuid violates the primary key and raises. */
    method ReserveCall(q: RequestId, t: TenantId, c: Choice)
      returns (res: Option<ReservationId>, raised: bool)
      requires Valid() && q in requests && requests[q] == Reserving(t)
      modifies this`requests, this`log, this`homes, store`reservations
      ensures Moved(q, if res.Some? then Some(Sending(t, res.value)) else None)
      ensures raised ==> res.None?
      ensures !raised ==> (res.Some? <==> old(CanReserve(store.View(), t, cfg.maxTunnels, cfg.MinCredits())))
    {
      hide Carries, Converted, Inv;
      var before := World();
      var unused := (c.Uuid? || c.UuidFault?) && c.rid !in homes;
      res, raised := None, !(unused && c.Uuid?);
      if unused && (c.Uuid? || c.committed) {
        var got := store.ReserveTunnel(c.rid, t, cfg.maxTunnels, cfg.MinCredits());
        if got.Some? {
          homes := homes[c.rid := t];
          if !raised { res := got; }
        }
      }
      Advance(q, if unused then c else Die, before);
    }

    /** The create call leaves for the engine. */
    method SendCreate(q: RequestId, t: TenantId, res: ReservationId)
      requires Valid() && q in requests && requests[q] == Sending(t, res)
      modifies this`requests, this`log, this`inbox
      ensures Moved(q, Some(Awaiting(t, res)))
    {
      var before := World();
      inbox := inbox + {res};
      Advance(q, Proceed, before);
    }

    /**
      The reply to the create call. An id or a 4xx is believed only when it is true, and
      anything else counts as no answer; without an answer the reservation is left stranded.
     */
    method ReceiveCreate(q: RequestId, t: TenantId, res: ReservationId, c: Choice)
      returns (reply: CreateReply)
      requires Valid() && q in requests && requests[q] == Awaiting(t, res)
      modifies this`requests, this`log
      ensures Moved(q, match reply
                       case Created(id) => Some(Noting(t, res, id))
                       case Rejected => Some(Releasing(t, res))
                       case _ => None)
      ensures reply.Malformed? || reply.Unanswered? ==> Stranded(World(), res)
    {
      hide Carries, Converted, Inv, Stranded;
      var before := World();
      RunInv(cfg, log, before);
      reply := Unanswered;
      if c.CreateCall? {
        match c.created {
          case Created(id) => if id in origin && origin[id] == res { reply := c.created; }
          case Rejected => if res !in inbox && res !in origin.Values { reply := Rejected; }
          case _ => reply := c.created;
        }
      }
      Advance(q, CreateCall(reply), before);
      if reply.Malformed? || reply.Unanswered? { LeftStranded(cfg, before, World(), q, t, res); }
    }

    method NoteCall(q: RequestId, t: TenantId, res: ReservationId, id: TunnelId, c: Choice)
      returns (raised: bool)
      requires Valid() && q in requests && requests[q] == Noting(t, res, id)
      modifies this`requests, this`log, store`reservations
      ensures Moved(q, Some(if raised then Compensating(t, res, id) else Completing(t, res, id)))
      ensures Provisioned(World(), t, res, id)
    {
      hide Converted, Inv, Provisioned, Used, Gone, Barred, Quiet, Accounting;
      var before := World();
      RunInv(cfg, log, before);
      NotingProvisioned(cfg, before, q);
      raised := c.StoreFault?;
      if !raised || c.committed {
        store.NoteReservationTunnel(res, id);
      }
      Advance(q, StoreChoice(c), before);
    }

    /** None when the call raises, be it a SQLite error or the primary key. */
    method CompleteCall(q: RequestId, t: TenantId, res: ReservationId, id: TunnelId, c: Choice)
      returns (active: Option<bool>)
      requires Valid() && q in requests && requests[q] == Completing(t, res, id)
      modifies this`requests, this`log, store`reservations, store`links
      ensures Moved(q, Some(if active.None? then Compensating(t, res, id)
                            else if active.value then Releasing(t, res) else CleaningUp(t, res, id)))
    {
      var before := World();
      active := None;
      if !c.StoreFault? || c.committed {
        var answer := store.CompleteReservation(t, res, id);
        if !c.StoreFault? { active := answer; }
      }
      Advance(q, StoreChoice(c), before);
    }

    method ReleaseCall(q: RequestId, t: TenantId, res: ReservationId, c: Choice) returns (raised: bool)
      requires Valid() && q in requests && requests[q] == Releasing(t, res)
      modifies this`requests, this`log, store`reservations
      ensures Moved(q, None)
      ensures !raised ==> res !in store.reservations
    {
      var before := World();
      raised := c.StoreFault?;
      if !raised || c.committed {
        store.ReleaseReservation(res);
      }
      Advance(q, StoreChoice(c), before);
    }

    method DisableCall(q: RequestId, t: TenantId, now: real, c: Choice) returns (raised: bool)
      requires Valid() && q in requests && requests[q] == Disabling(t, now) && t in store.tenants
      modifies this`requests, this`log, store`tenants
      ensures Moved(q, if raised then None else Some(ReadingOwned(t)))
      ensures !raised ==> Barred(store.View(), t)
    {
      var before := World();
      raised := c.StoreFault?;
      if !raised || c.committed {
        store.Disable(t, now);
      }
      Advance(q, StoreChoice(c), before);
    }

    // ----- The handlers -----

    lemma TombstoneGone(q: RequestId, id: TunnelId)
      requires Inv(cfg, World()) && q in requests && requests[q].Tombstones? && id in requests[q].dead
      ensures Gone(World(), id)
    {
      assert RequestOk(World(), requests[q]);
    }

    /** Unlink one id the listing lacks. */
    method UnlinkTombstone(
      q: RequestId, t: TenantId, id: TunnelId, dead: set<TunnelId>, leases: set<TunnelId>, next: Followup,
      ghost known: set<TunnelId>, ghost cleared: set<TunnelId>
    ) returns (raised: bool)
      requires Valid() && Inv(cfg, World()) && id in dead && Placed(q, Some(Tombstones(t, dead, leases, next)))
      requires AllUsed(World(), t, known) && AllCleared(World(), t, cleared) && id in known
      modifies this, store
      ensures Valid() && Inv(cfg, World()) && old(log) <= log
      ensures Placed(q, if raised then None else Some(Tombstones(t, dead - {id}, leases, next)))
      ensures AllUsed(World(), t, known) && AllCleared(World(), t, cleared)
      ensures !raised ==> AllCleared(World(), t, {id})
    {
      hide Run, Inv, Gone, Used, Provisioned, Barred, Quiet, Accounting, Valid;
      TombstoneGone(q, id);
      Local(q, Take(id));
      var c := Wait(q);
      raised := UnlinkCall(q, t, id, c);
    }

    /**
      Unlink what the listing lacks, one by one; true when SQLite raises and the request is
      over. Otherwise every one of these leases is gone for good.
     */
    method UnlinkTombstones(q: RequestId, t: TenantId, gone: set<TunnelId>, leases: set<TunnelId>, next: Followup)
      returns (raised: bool)
      requires Valid() && Inv(cfg, World()) && Placed(q, Some(Tombstones(t, gone, leases, next)))
      requires AllUsed(World(), t, gone)
      modifies this, store
      ensures Valid() && Inv(cfg, World()) && old(log) <= log
      ensures Placed(q, if raised then None else Some(Tombstones(t, {}, leases, next)))
      ensures !raised ==> AllCleared(World(), t, gone)
    {
      hide Run, Inv, Carries, Valid, Gone, Used;
      var dead := gone;
      while dead != {}
        invariant Valid() && Inv(cfg, World()) && Placed(q, Some(Tombstones(t, dead, leases, next)))
        invariant old(log) <= log && dead <= gone
        invariant AllUsed(World(), t, gone) && AllCleared(World(), t, gone - dead)
        decreases dead
      {
        var id :| id in dead;
        raised := UnlinkTombstone(q, t, id, dead, leases, next, gone, gone - dead);
        if raised { return; }
        OneMoreCleared(World(), t, gone, dead, id);
        dead := dead - {id};
      }
      assert gone - dead == gone;
      raised := false;
    }

    /**
      The tenant's leases; leases the engine no longer has are unlinked on the way. The
      answer is what the store held after `asked` actions and the engine after `listed`, both
      since the call; what the engine lacked is gone for good.
     */
    method TunnelsForTenant(q: RequestId, t: TenantId, next: Followup)
      returns (r: ReadResult, ghost asked: nat, ghost listed: nat)
      requires Valid() && q in requests && requests[q] == ReadScope(t, next)
      modifies this, store
      ensures Valid() && Inv(cfg, World()) && old(log) <= log
      ensures Placed(q, if r.Read? then Some(Tombstones(t, {}, r.leases, next)) else None)
      ensures r.Read? ==>
                && |old(log)| <= asked <= listed <= |log|
                && var scope, live := TunnelsOf(History(cfg, log, asked).store, t), History(cfg, log, listed).live;
                   r.leases == scope * live && AllCleared(World(), t, scope - live)
    {
      hide Run, Inv, Carries, Valid, AllUsed, AllCleared, TunnelsOf, History;
      var c := Wait(q);
      ghost var before, past := World(), log;
      ValidRun();
      asked, listed := |log|, |log|;
      var scope := ScopeCall(q, t, next, c);
      HistoryStays(cfg, past, before, log);
      if scope.None? { return StoreRaised, asked, listed; }
      if scope.value == {} {
        NothingCleared(World(), t, before.live);
        return Read({}), asked, listed;
      }
      var listing;
      listing, listed := ListEngineFor(q, t, scope.value, next);
      if listing.None? { return EngineDown, asked, listed; }
      ghost var middle := log;
      var leases := scope.value * listing.value;
      var raised := UnlinkTombstones(q, t, scope.value - listing.value, leases, next);
      HistoryStays(cfg, past, before, log);
      HistoryKept(cfg, middle, log, listed);
      r := if raised then StoreRaised else Read(leases);
    }

    lemma ValidRun()
      requires Valid()
      ensures Run(cfg, EMPTY, log) == Some(World())
    {
    }

    /** List the engine's tunnels, `listed` actions into the history. */
    method ListEngineFor(q: RequestId, t: TenantId, scope: set<TunnelId>, next: Followup)
      returns (listing: Option<set<TunnelId>>, ghost listed: nat)
      requires Valid() && q in requests && requests[q] == ListEngine(t, scope, next)
      requires AllUsed(World(), t, scope)
      modifies this, store
      ensures Valid() && Inv(cfg, World()) && old(log) <= log
      ensures Placed(q, if listing.None? then None
                        else Some(Tombstones(t, scope - listing.value, scope * listing.value, next)))
      ensures |old(log)| <= listed <= |log|
      ensures listing.Some? ==> listing.value == History(cfg, log, listed).live
      ensures listing.Some? ==> AllUsed(World(), t, scope - listing.value)
    {
      hide Run, Inv, Valid, Gone, Used, Provisioned, Barred, Quiet, Accounting, History;
      var c := Wait(q);
      ghost var before, past := World(), log;
      ValidRun();
      listed := |log|;
      listing := EngineTunnels(q, t, scope, next, c);
      HistoryStays(cfg, past, before, log);
    }

    /** The except branch of a create that knows its tunnel: whether the slot may be released. */
    method Compensate(q: RequestId, t: TenantId, res: ReservationId, id: TunnelId)
      returns (outcome: CreateOutcome, releaseSlot: bool)
      requires Valid() && q in requests && requests[q] == Compensating(t, res, id)
      requires Provisioned(World(), t, res, id)
      modifies this, store
      ensures Valid() && Provisioned(World(), t, res, id)
      ensures Placed(q, if releaseSlot then Some(Releasing(t, res)) else None)
      ensures outcome == FinalizeFailed(id, releaseSlot)
      ensures releaseSlot ==> Gone(World(), id)
    {
      hide Run, Inv, Gone, Provisioned, Barred, Quiet, Accounting, Valid;
      var c := Wait(q);
      var undone := DeleteCallTo(q, id, c);
      outcome, releaseSlot := FinalizeFailed(id, !undone.Failed?), !undone.Failed?;
    }

    /**
      The tenant was disabled meanwhile: delete the tunnel, and its lease once the engine has
      answered success; `raised` when SQLite raises.
     */
    method CleanUp(q: RequestId, t: TenantId, res: ReservationId, id: TunnelId)
      returns (raised: bool, ghost cleaned: bool)
      requires Valid() && q in requests && requests[q] == CleaningUp(t, res, id)
      requires Provisioned(World(), t, res, id)
      modifies this, store
      ensures Valid() && Provisioned(World(), t, res, id)
      ensures Placed(q, Some(if raised then Compensating(t, res, id) else Releasing(t, res)))
      ensures cleaned ==> Gone(World(), id) && (!raised ==> Link(t, id) !in store.links)
      ensures raised ==> cleaned
    {
      hide Run, Inv, Gone, Used, Provisioned, Barred, Quiet, Accounting, Valid;
      var c := Wait(q);
      var reply := DeleteCallTo(q, id, c);
      cleaned, raised := reply == Deleted, false;
      if reply == Deleted {
        raised := UnlinkCleaned(q, t, res, id);
      }
    }

    /** The unlink that follows the engine's delete. */
    method UnlinkCleaned(q: RequestId, t: TenantId, res: ReservationId, id: TunnelId) returns (raised: bool)
      requires Valid() && q in requests && requests[q] == UnlinkingCleaned(t, res, id)
      requires Provisioned(World(), t, res, id) && Gone(World(), id)
      modifies this, store
      ensures Valid() && Provisioned(World(), t, res, id) && Gone(World(), id)
      ensures Placed(q, Some(if raised then Compensating(t, res, id) else Releasing(t, res)))
      ensures !raised ==> Link(t, id) !in store.links
    {
      hide Run, Inv, Gone, Used, Provisioned, Barred, Quiet, Accounting, Valid;
      var c := Wait(q);
      raised := UnlinkCall(q, t, id, c);
    }

    /** The try and except parts of a create that knows its tunnel. */
    method FinalizeLease(q: RequestId, t: TenantId, res: ReservationId, id: TunnelId)
      returns (outcome: CreateOutcome, releaseSlot: bool)
      requires Valid() && q in requests && requests[q] == Noting(t, res, id)
      modifies this, store
      ensures Valid() && Provisioned(World(), t, res, id)
      ensures Placed(q, if releaseSlot then Some(Releasing(t, res)) else None)
      ensures !releaseSlot ==> outcome == FinalizeFailed(id, false)
      ensures releaseSlot ==> outcome in {Leased(id), DisabledMeanwhile(id), FinalizeFailed(id, true)}
      ensures outcome == FinalizeFailed(id, true) ==> Gone(World(), id)
    {
      hide Run, Inv, Gone, Provisioned, Barred, Quiet, Accounting, Valid;
      var c := Wait(q);
      var raised := NoteCall(q, t, res, id, c);
      if !raised {
        c := Wait(q);
        var active := CompleteCall(q, t, res, id, c);
        if active == Some(true) { return Leased(id), true; }
        if active == Some(false) {
          ghost var cleaned;
          raised, cleaned := CleanUp(q, t, res, id);
          if !raised { return DisabledMeanwhile(id), true; }
        }
      }
      outcome, releaseSlot := Compensate(q, t, res, id);
    }

    /** Send the create call and act on its reply, up to the finally part. */
    method Provision(q: RequestId, t: TenantId, res: ReservationId)
      returns (outcome: CreateOutcome, releaseSlot: bool)
      requires Valid() && q in requests && requests[q] == Sending(t, res)
      modifies this, store
      ensures Valid()
      ensures Placed(q, if releaseSlot then Some(Releasing(t, res)) else None)
      ensures outcome.EngineRejected? || outcome.Uncertain? || HasTunnel(outcome)
      ensures HasTunnel(outcome) ==> Provisioned(World(), t, res, outcome.id)
      ensures outcome.Uncertain? ==> !releaseSlot && Stranded(World(), res)
      ensures !releaseSlot ==> outcome.Uncertain? || (outcome.FinalizeFailed? && !outcome.removed)
      ensures outcome.FinalizeFailed? ==> (outcome.removed <==> releaseSlot)
      ensures outcome.FinalizeFailed? && outcome.removed ==> Gone(World(), outcome.id)
    {
      hide Run, Inv, Gone, Provisioned, Barred, Quiet, Accounting, Stranded, Valid;
      var c := Wait(q);
      SendCreate(q, t, res);
      c := Wait(q);
      var reply := ReceiveCreate(q, t, res, c);
      match reply {
        case Unanswered => outcome, releaseSlot := Uncertain, false;
        case Malformed => outcome, releaseSlot := Uncertain, false;
        case Rejected => outcome, releaseSlot := EngineRejected, true;
        case Created(id) => outcome, releaseSlot := FinalizeLease(q, t, res, id);
      }
    }

    /** The outcomes after which the reservation is gone. */
    predicate SlotSettled(outcome: CreateOutcome) {
      || outcome.EngineRejected? || outcome.Leased? || outcome.DisabledMeanwhile?
      || (outcome.FinalizeFailed? && outcome.removed)
    }

    predicate HasTunnel(outcome: CreateOutcome) {
      outcome.Leased? || outcome.DisabledMeanwhile? || outcome.FinalizeFailed?
    }

    /**
      Create a lease. An outcome that leaves it open whether the engine made a tunnel keeps
      the reservation, with nobody left to release it; every definite outcome gives the slot
      back or has turned it into ownership; and a tunnel that was made is, while it lives,
      accounted for by the one or the other.
     */
    method CreateTenantTunnel(q: RequestId, t: TenantId)
      returns (outcome: CreateOutcome, res: Option<ReservationId>)
      requires Valid() && q !in requests
      modifies this, store
      ensures Valid() && q !in requests
      ensures res.None? <==> outcome in {Unread, Refused, ReserveRaised}
      ensures outcome == Uncertain ==> Stranded(World(), res.value)
      ensures SlotSettled(outcome) ==> res.value !in store.reservations
      ensures HasTunnel(outcome) ==>
                && Provisioned(World(), t, res.value, outcome.id)
                && (outcome.id in live ==>
                      Link(t, outcome.id) in store.links || res.value in store.reservations)
      ensures outcome.FinalizeFailed? && outcome.removed ==> Gone(World(), outcome.id)
    {
      hide Run, Inv, Gone, Provisioned, Carries, Stranded, Valid;
      outcome, res := ReserveSlot(q, t);
      if res.None? { return; }
      var releaseSlot;
      outcome, releaseSlot := Provision(q, t, res.value);
      if releaseSlot {
        outcome := Release(q, t, res.value, outcome);
      }
      if HasTunnel(outcome) {
        ValidInv();
        Accounted(cfg, World(), t, res.value, outcome.id);
      }
    }

    /** The finally part. */
    method Release(q: RequestId, t: TenantId, res: ReservationId, outcome: CreateOutcome)
      returns (last: CreateOutcome)
      requires Valid() && q in requests && requests[q] == Releasing(t, res)
      requires HasTunnel(outcome) ==> Provisioned(World(), t, res, outcome.id)
      requires outcome.FinalizeFailed? && outcome.removed ==> Gone(World(), outcome.id)
      modifies this, store
      ensures Valid() && q !in requests
      ensures last == ReleaseRaised || (last == outcome && res !in store.reservations)
      ensures HasTunnel(last) ==> Provisioned(World(), t, res, last.id)
      ensures last.FinalizeFailed? && last.removed ==> Gone(World(), last.id)
    {
      hide Run, Inv, Gone, Provisioned, Barred, Quiet, Accounting, Valid;
      var c := Wait(q);
      var raised := ReleaseCall(q, t, res, c);
      last := if raised then ReleaseRaised else outcome;
    }

    /** Read the leases, then reserve a slot. */
    method ReserveSlot(q: RequestId, t: TenantId)
      returns (outcome: CreateOutcome, res: Option<ReservationId>)
      requires Valid() && q !in requests
      modifies this, store
      ensures Valid() && Placed(q, if res.Some? then Some(Sending(t, res.value)) else None)
      ensures res.None? <==> outcome in {Unread, Refused, ReserveRaised}
    {
      hide Run, Inv, Carries, Valid;
      res := None;
      var tenant := store.GetTenant(t);
      if tenant.None? || tenant.value.state != Active {
        return Refused, None;
      }
      Enter(q, ReadScope(t, CreateLease));
      var read, asked, listed := TunnelsForTenant(q, t, CreateLease);
      if !read.Read? { return Unread, None; }
      Local(q, Proceed);
      var c := Wait(q);
      var raised;
      res, raised := ReserveCall(q, t, c);
      outcome := if raised then ReserveRaised else if res.None? then Refused else Uncertain;
    }

    lemma ValidInv()
      requires Valid()
      ensures Inv(cfg, World())
    {
      RunInv(cfg, log, World());
    }

    /** Delete one of the tenant's leases. */
    method DeleteTenantTunnel(q: RequestId, t: TenantId, id: TunnelId) returns (outcome: DeleteOutcome)
      requires Valid() && q !in requests
      modifies this, store
      ensures Valid() && q !in requests
      ensures outcome == LeaseDeleted ==> Gone(World(), id) && Link(t, id) !in store.links
    {
      hide Run, Inv, Gone, Carries, Valid;
      var tenant := store.GetTenant(t);
      if tenant.None? || tenant.value.state != Active {
        return DeleteFailed;
      }
      Enter(q, ReadScope(t, DeleteLease(id)));
      var read, asked, listed := TunnelsForTenant(q, t, DeleteLease(id));
      if !read.Read? { return DeleteFailed; }
      Local(q, Proceed);
      if id !in read.leases { return NoSuchLease; }
      outcome := DeleteOwned(q, t, id);
    }

    /** The engine call, then the unlink. */
    method DeleteOwned(q: RequestId, t: TenantId, id: TunnelId) returns (outcome: DeleteOutcome)
      requires Valid() && q in requests && requests[q] == DeletingLease(t, id)
      modifies this, store
      ensures Valid() && q !in requests
      ensures outcome == LeaseDeleted ==> Gone(World(), id) && Link(t, id) !in store.links
    {
      hide Run, Inv, Gone, Used, Provisioned, Barred, Quiet, Accounting, Valid;
      var c := Wait(q);
      var reply := DeleteCallTo(q, id, c);
      if reply != Deleted { return DeleteFailed; }
      c := Wait(q);
      var raised := UnlinkCall(q, t, id, c);
      outcome := if raised then DeleteFailed else LeaseDeleted;
    }

    /** What one stage of the disable loop keeps of the account of what is left. */
    twostate predicate AccountKept(q: RequestId, t: TenantId)
      requires old(q in requests)
      reads this, store
    {
      && Inv(cfg, World()) && old(log) <= log
      && (forall id :: old(Gone(World(), id)) ==> Gone(World(), id))
      && (old(Barred(store.View(), t)) ==> Barred(store.View(), t))
      && (old(Accounting(cfg, World(), t, requests[q])) && q in requests ==>
            Accounting(cfg, World(), t, requests[q]))
    }

    /** Take up the next id. */
    method SweepPick(q: RequestId, t: TenantId, id: TunnelId, todo: set<TunnelId>, pending: set<TunnelId>)
      requires Valid() && id in todo && Placed(q, Some(Sweeping(t, todo, pending)))
      modifies this, store
      ensures Valid() && AccountKept(q, t)
      ensures Placed(q, Some(SweepDelete(t, id, todo - {id}, pending)))
    {
      hide Run, Inv, Gone, Used, Provisioned, Barred, Quiet, Accounting, Valid;
      Local(q, Take(id));
    }

    /** Delete one id: kept pending if that fails, else to be unlinked. */
    method SweepTake(q: RequestId, t: TenantId, id: TunnelId, todo: set<TunnelId>, pending: set<TunnelId>)
      returns (reply: DeleteReply)
      requires Valid() && Placed(q, Some(SweepDelete(t, id, todo, pending)))
      modifies this, store
      ensures Valid() && AccountKept(q, t)
      ensures Placed(q, Some(if reply.Failed? then Sweeping(t, todo, pending + {id})
                             else SweepUnlink(t, id, todo, pending)))
      ensures !reply.Failed? ==> Gone(World(), id)
    {
      hide Run, Inv, Gone, Used, Provisioned, Barred, Quiet, Accounting, Valid;
      var c := Wait(q);
      reply := DeleteCallTo(q, id, c);
    }

    /** Unlink an id whose delete succeeded. */
    method SweepDrop(q: RequestId, t: TenantId, id: TunnelId, todo: set<TunnelId>, pending: set<TunnelId>)
      returns (raised: bool)
      requires Valid() && Placed(q, Some(SweepUnlink(t, id, todo, pending)))
      modifies this, store
      ensures Valid() && AccountKept(q, t)
      ensures Placed(q, if raised then None else Some(Sweeping(t, todo, pending)))
      ensures !raised ==> Link(t, id) !in store.links
    {
      hide Run, Inv, Gone, Used, Provisioned, Barred, Quiet, Accounting, Valid;
      var c := Wait(q);
      raised := UnlinkCall(q, t, id, c);
    }

    /** One turn of the disable loop: an id whose delete fails stays pending, any other is deleted and unlinked. */
    method SweepOne(q: RequestId, t: TenantId, id: TunnelId, todo: set<TunnelId>, pending: set<TunnelId>)
      returns (kept: set<TunnelId>, raised: bool)
      requires Valid() && id in todo && Placed(q, Some(Sweeping(t, todo, pending)))
      modifies this, store
      ensures Valid() && AccountKept(q, t)
      ensures kept == pending || kept == pending + {id}
      ensures Placed(q, if raised then None else Some(Sweeping(t, todo - {id}, kept)))
      ensures !raised && id !in kept ==> Gone(World(), id) && Link(t, id) !in store.links
    {
      hide Run, Inv, Gone, Carries, Provisioned, Barred, Quiet, Accounting, Valid;
      kept, raised := pending, false;
      SweepPick(q, t, id, todo, pending);
      var reply := SweepTake(q, t, id, todo - {id}, pending);
      if reply.Failed? { return pending + {id}, false; }
      raised := SweepDrop(q, t, id, todo - {id}, pending);
    }

    /**
      Disable a tenant and delete what it owns. Once answered the tenant is barred, and
      whatever it owned when its leases were read (after `asked` actions) is gone from the
      engine or among the ids reported as pending. When no reservation of the tenant was left
      at the moment of the state change (`quiet`), its live tunnels and its leases are all
      among the ids reported as pending: none pending means none left.
     */
    method AdminDisable(q: RequestId, t: TenantId, now: real)
      returns (pending: Option<set<TunnelId>>, ghost quiet: bool, ghost asked: nat)
      requires Valid() && q !in requests
      modifies this, store
      ensures Valid() && Inv(cfg, World()) && (pending.Some? ==> q !in requests)
      ensures pending.Some? ==> Barred(store.View(), t)
      ensures pending.Some? ==>
                && |old(log)| <= asked <= |log|
                && GoneBut(World(), TunnelsOf(History(cfg, log, asked).store, t), pending.value)
      ensures pending.Some? && quiet ==>
                LiveOf(World(), t) <= pending.value && TunnelsOf(store.View(), t) <= pending.value
      ensures pending.Some? && old(Quiet(store.View(), t)) ==> quiet
    {
      hide Run, Inv, Carries, Gone, GoneBut, History, Barred, Quiet, Valid, LiveOf, TunnelsOf;
      quiet, asked := false, 0;
      ValidInv();
      var tenant := store.GetTenant(t);
      if tenant.None? {
        return None, false, 0;
      }
      Enter(q, Disabling(t, now));
      var raised := Bar(q, t, now);
      if raised { return None, false, 0; }
      quiet := Quiet(store.View(), t);
      pending, asked := Sweep(q, t);
    }

    /** The state change. */
    method Bar(q: RequestId, t: TenantId, now: real) returns (raised: bool)
      requires Valid() && Inv(cfg, World()) && Placed(q, Some(Disabling(t, now))) && t in store.tenants
      modifies this, store
      ensures Valid() && Inv(cfg, World()) && old(log) <= log
      ensures Placed(q, if raised then None else Some(ReadingOwned(t)))
      ensures !raised ==> Barred(store.View(), t)
      ensures !raised && old(Quiet(store.View(), t)) ==> Accounting(cfg, World(), t, ReadingOwned(t))
    {
      hide Run, Inv, Gone, Used, Provisioned, Barred, Quiet, Accounting, Valid;
      if Quiet(store.View(), t) { NotSweeping(cfg, World(), t, requests[q]); }
      var c := Wait(q);
      raised := DisableCall(q, t, now, c);
    }

    /** Read what the tenant owns and delete it all, from the state change on. */
    method Sweep(q: RequestId, t: TenantId) returns (pending: Option<set<TunnelId>>, ghost asked: nat)
      requires Valid() && Inv(cfg, World()) && Barred(store.View(), t)
      requires Placed(q, Some(ReadingOwned(t)))
      modifies this, store
      ensures Valid() && Inv(cfg, World()) && q !in requests && Barred(store.View(), t)
      ensures pending.Some? && old(Quiet(store.View(), t)) ==>
                LiveOf(World(), t) <= pending.value && TunnelsOf(store.View(), t) <= pending.value
      ensures pending.Some? ==>
                && |old(log)| <= asked <= |log|
                && GoneBut(World(), TunnelsOf(History(cfg, log, asked).store, t), pending.value)
    {
      hide Run, Inv, Gone, Used, Provisioned, Barred, Quiet, Accounting, Valid, LiveOf, TunnelsOf, History;
      if Quiet(store.View(), t) { NotSweeping(cfg, World(), t, ReadingOwned(t)); }
      var c := Wait(q);
      ghost var before, past := World(), log;
      ValidRun();
      asked := |log|;
      var owned := OwnedCall(q, t, c);
      HistoryStays(cfg, past, before, log);
      if owned.None? { return None, asked; }
      pending := SweepAll(q, t, owned.value);
      HistoryStays(cfg, past, before, log);
    }

    /** The disable loop. */
    method SweepAll(q: RequestId, t: TenantId, owned: set<TunnelId>) returns (pending: Option<set<TunnelId>>)
      requires Valid() && Inv(cfg, World()) && Barred(store.View(), t)
      requires Placed(q, Some(Sweeping(t, owned, {})))
      modifies this, store
      ensures Valid() && Inv(cfg, World()) && q !in requests && Barred(store.View(), t) && old(log) <= log
      ensures pending.Some? && old(Accounting(cfg, World(), t, Sweeping(t, owned, {}))) ==>
                && WellFormed(World())
                && LiveOf(World(), t) <= pending.value && TunnelsOf(store.View(), t) <= pending.value
      ensures pending.Some? ==> GoneBut(World(), owned, pending.value)
    {
      hide Run, Inv, Gone, Barred, Accounting, Valid, LiveOf, TunnelsOf, GoneBut, Carries;
      var todo, kept := owned, {};
      NothingSwept(World(), owned);
      while todo != {}
        invariant Valid() && Inv(cfg, World()) && Barred(store.View(), t) && old(log) <= log
        invariant Placed(q, Some(Sweeping(t, todo, kept))) && todo <= owned
        invariant old(Accounting(cfg, World(), t, Sweeping(t, owned, {}))) ==>
                    Accounting(cfg, World(), t, Sweeping(t, todo, kept))
        invariant GoneBut(World(), owned - todo, kept)
        decreases todo
      {
        var id :| id in todo;
        var raised;
        ghost var before, was := World(), kept;
        kept, raised := SweepOne(q, t, id, todo, kept);
        if raised { return None; }
        OneMoreGone(before, World(), owned - todo, id, was, kept);
        assert owned - todo + {id} == owned - (todo - {id});
        todo := todo - {id};
      }
      assert owned - todo == owned;
      Finish(q, t, kept, owned);
      pending := Some(kept);
    }

    /** The loop is over: answer with the ids still pending. */
    method Finish(q: RequestId, t: TenantId, kept: set<TunnelId>, ghost done: set<TunnelId>)
      requires Valid() && Inv(cfg, World()) && Placed(q, Some(Sweeping(t, {}, kept)))
      requires GoneBut(World(), done, kept)
      modifies this`requests, this`log
      ensures Valid() && Inv(cfg, World()) && q !in requests && old(log) <= log
      ensures old(Barred(store.View(), t)) ==> Barred(store.View(), t)
      ensures old(Accounting(cfg, World(), t, Sweeping(t, {}, kept))) ==>
                WellFormed(World()) && LiveOf(World(), t) <= kept && TunnelsOf(store.View(), t) <= kept
      ensures GoneBut(World(), done, kept)
    {
      hide Run, Inv, Valid, Carries, LiveOf, TunnelsOf, Accounting;
      ghost var before := World();
      Local(q, Proceed);
      Local(q, Proceed);
      if Accounting(cfg, before, t, Sweeping(t, {}, kept)) {
        SweepEnds(before, World(), t, kept);
      }
    }

    lemma SweepEnds(b: Board, d: Board, t: TenantId, kept: set<TunnelId>)
      requires d.(requests := b.requests) == b && Accounting(cfg, b, t, Sweeping(t, {}, kept))
      ensures WellFormed(d) && LiveOf(d, t) <= kept && TunnelsOf(d.store, t) <= kept
    {
      assert LiveOf(d, t) == LiveOf(b, t);
    }
  }
}
