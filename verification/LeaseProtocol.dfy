/**
  The lease protocol as a step system: the tenancy store, the engine's tunnels, and any
  number of requests in flight, each at its own point of its handler. A step is one store
  transaction, one engine exchange or one event of the environment; every choice the
  environment makes (a lost reply, a malformed success, a SQLite error that may or may
  not have committed, the death of the process) is part of the action.
 */
module LeaseProtocol {
  import opened Collections
  import opened TenancyStore
  import opened Wrappers

  type RequestId = nat

  datatype Settings = Settings(
    maxTunnels: int,
    meterEnabled: bool,
    creditIntervalS: int,
    startingCredits: real,
    ledgerKeep: int
  ) {
    function MinCredits(): real {
      if meterEnabled && creditIntervalS > 0 then 1.0 else 0.0
    }

    /** The most slots a tenant can occupy. */
    function Cap(): nat {
      if maxTunnels < 0 then 0 else maxTunnels
    }
  }

  /** What the handler does once the tenant's leases are read. */
  datatype Followup = AnswerLeases | CreateLease | DeleteLease(id: TunnelId)

  /** Where a request stands, with the locals of its handler. */
  datatype Request =
    // tunnels_for_tenant
    | ReadScope(tenant: TenantId, next: Followup)
    | ListEngine(tenant: TenantId, scope: set<TunnelId>, next: Followup)
    | Tombstones(tenant: TenantId, dead: set<TunnelId>, leases: set<TunnelId>, next: Followup)
    | UnlinkTombstone(tenant: TenantId, id: TunnelId, dead: set<TunnelId>, leases: set<TunnelId>, next: Followup)
    // create_tenant_tunnel
    | Reserving(tenant: TenantId)
    | Sending(tenant: TenantId, res: ReservationId)
    | Awaiting(tenant: TenantId, res: ReservationId)
    | Noting(tenant: TenantId, res: ReservationId, id: TunnelId)
    | Completing(tenant: TenantId, res: ReservationId, id: TunnelId)
    | CleaningUp(tenant: TenantId, res: ReservationId, id: TunnelId)
    | UnlinkingCleaned(tenant: TenantId, res: ReservationId, id: TunnelId)
    | Compensating(tenant: TenantId, res: ReservationId, id: TunnelId)
    | Releasing(tenant: TenantId, res: ReservationId)
    // delete_tenant_tunnel
    | DeletingLease(tenant: TenantId, id: TunnelId)
    | UnlinkingLease(tenant: TenantId, id: TunnelId)
    // admin_disable
    | Disabling(tenant: TenantId, now: real)
    | ReadingOwned(tenant: TenantId)
    | Sweeping(tenant: TenantId, todo: set<TunnelId>, pending: set<TunnelId>)
    | SweepDelete(tenant: TenantId, id: TunnelId, todo: set<TunnelId>, pending: set<TunnelId>)
    | SweepUnlink(tenant: TenantId, id: TunnelId, todo: set<TunnelId>, pending: set<TunnelId>)
    | SweepDone(tenant: TenantId, pending: set<TunnelId>)

  /** A 4xx answer is `Rejected`; a timeout, a refused connection or a 5xx is `Unanswered`. */
  datatype CreateReply = Created(id: TunnelId) | Malformed | Rejected | Unanswered

  /** `Missing` is 404; a failed call may still have removed the tunnel. */
  datatype DeleteReply = Deleted | Missing | Failed(removed: bool)

  datatype Choice =
    | Proceed
    | Take(id: TunnelId)
    | StoreFault(committed: bool)
    | ListFault
    | Uuid(rid: ReservationId)
    | UuidFault(rid: ReservationId, committed: bool)
    | CreateCall(created: CreateReply)
    | DeleteCall(deleted: DeleteReply)
    | Die

  datatype Action =
    | Act(q: RequestId, choice: Choice)
    | Arrive(q: RequestId, request: Request)
    | EngineCreates(res: ReservationId, id: TunnelId)
    | EngineDrops(res: ReservationId)
    | EngineRemoves(id: TunnelId)
    | EngineForeign(id: TunnelId)
    | SignUpTenant(tenant: TenantId, key: string, now: real)
    | Meter(tenant: TenantId, now: real)
    | AdminGrants(tenant: TenantId, amount: real, now: real)
    | RotateKey(tenant: TenantId, key: string, now: real)

  /**
    `live` are the engine's tunnels whose create is over, `issued` every such id there ever
    was. `inbox` holds the create calls the engine has received and not finished: a caller
    that timed out leaves its call there, and the engine may still act on it. A tunnel under
    construction is such a call: its id is not known to anyone it was made for, and a delete
    that overtakes it is undone by the row its create saves last. `origin` (which call made a tunnel)
    and `homes` (whose reservation it was) are history that no step reads.
   */
  datatype Board = Board(
    store: StoreState,
    live: set<TunnelId>,
    issued: set<TunnelId>,
    inbox: set<ReservationId>,
    origin: map<TunnelId, ReservationId>,
    homes: map<ReservationId, TenantId>,
    requests: map<RequestId, Request>
  )

  const EMPTY :=
    Board(StoreState(map[], [], {}, map[]), {}, {}, {}, map[], map[], map[])

  // ----- Steps -----

  /** A store call that raised: the transaction is all there or not there. */
  function Faulted(b: Board, after: StoreState, committed: bool): Board {
    if committed then b.(store := after) else b
  }

  function WithReservation(b: Board, rid: ReservationId, t: TenantId): Board {
    b.(store := Reserved(b.store, rid, t), homes := b.homes[rid := t])
  }

  function Without(b: Board, id: TunnelId): Board {
    b.(live := b.live - {id})
  }

  function Removed(b: Board, id: TunnelId, reply: DeleteReply): Board {
    match reply
    case Deleted => Without(b, id)
    case Missing => b
    case Failed(removed) => if removed then Without(b, id) else b
  }

  /** 404 is answered only for a tunnel that is not there. */
  predicate Honest(b: Board, id: TunnelId, reply: DeleteReply) {
    reply == Missing ==> id !in b.live
  }

  /** What one handler step does: the tables and the engine after it, and where it stands next. */
  datatype Move = Move(after: Board, next: Option<Request>)

  function Ends(b: Board): Option<Move> { Some(Move(b, None)) }

  function Goes(b: Board, r: Request): Option<Move> { Some(Move(b, Some(r))) }

  function Becomes(b: Board, st: StoreState, r: Request): Option<Move> { Goes(b.(store := st), r) }

  predicate Unlinking(r: Request) {
    r.UnlinkTombstone? || r.UnlinkingLease? || r.UnlinkingCleaned? || r.SweepUnlink?
  }

  /** Where a handler goes after `unlink_tunnel`, by whether the call raised. */
  function AfterUnlink(r: Request, raised: bool): Option<Request> {
    match r
    case UnlinkTombstone(t, _, dead, leases, next) =>
      if raised then None else Some(Tombstones(t, dead, leases, next))
    case UnlinkingCleaned(t, res, id) =>
      Some(if raised then Compensating(t, res, id) else Releasing(t, res))
    case SweepUnlink(t, _, todo, pending) => if raised then None else Some(Sweeping(t, todo, pending))
    case _ => None
  }

  function UnlinkMove(b: Board, r: Request, c: Choice): Option<Move>
    requires Unlinking(r)
  {
    var after := Unlinked(b.store, r.tenant, r.id);
    if c == Proceed then Some(Move(b.(store := after), AfterUnlink(r, false)))
    else if c.StoreFault? then Some(Move(Faulted(b, after, c.committed), AfterUnlink(r, true)))
    else None
  }

  predicate Deleting(r: Request) {
    r.DeletingLease? || r.CleaningUp? || r.Compensating? || r.SweepDelete?
  }

  /** Where a handler goes after `engine.delete_tunnel`, by the engine's answer. */
  function AfterDelete(r: Request, reply: DeleteReply): Option<Request> {
    match r
    case DeletingLease(t, id) => if reply == Deleted then Some(UnlinkingLease(t, id)) else None
    case CleaningUp(t, res, id) =>
      Some(if reply == Deleted then UnlinkingCleaned(t, res, id) else Releasing(t, res))
    case Compensating(t, res, _) => if reply.Failed? then None else Some(Releasing(t, res))
    case SweepDelete(t, id, todo, pending) =>
      Some(if reply.Failed? then Sweeping(t, todo, pending + {id}) else SweepUnlink(t, id, todo, pending))
    case _ => None
  }

  function DeleteMove(b: Board, r: Request, c: Choice): Option<Move>
    requires Deleting(r)
  {
    if c.DeleteCall? && Honest(b, r.id, c.deleted)
    then Some(Move(Removed(b, r.id, c.deleted), AfterDelete(r, c.deleted)))
    else None
  }

  /** `tunnels_for_tenant`, then its follow-up. */
  function LeaseMove(b: Board, r: Request, c: Choice): Option<Move> {
    match r
    case ReadScope(t, next) =>
      var scope := TunnelsOf(b.store, t);
      if c == Proceed then
        Goes(b, if scope == {} then Tombstones(t, {}, {}, next) else ListEngine(t, scope, next))
      else if c.StoreFault? then Ends(b) else None
    case ListEngine(t, scope, next) =>
      if c == Proceed then Goes(b, Tombstones(t, scope - b.live, scope * b.live, next))
      else if c == ListFault then Ends(b) else None
    case Tombstones(t, dead, leases, next) =>
      if c.Take? && c.id in dead then
        Goes(b, UnlinkTombstone(t, c.id, dead - {c.id}, leases, next))
      else if c == Proceed && dead == {} then
        (match next
         case AnswerLeases => Ends(b)
         case CreateLease => Goes(b, Reserving(t))
         case DeleteLease(id) => if id in leases then Goes(b, DeletingLease(t, id)) else Ends(b))
      else None
    case _ => None
  }

  /** `create_tenant_tunnel` up to the engine's answer. */
  function ProvisionMove(cfg: Settings, b: Board, r: Request, c: Choice): Option<Move> {
    match r
    case Reserving(t) =>
      var can := CanReserve(b.store, t, cfg.maxTunnels, cfg.MinCredits());
      if c.Uuid? && c.rid !in b.homes then
        if can then Goes(WithReservation(b, c.rid, t), Sending(t, c.rid)) else Ends(b)
      else if c.UuidFault? && c.rid !in b.homes then
        Ends(if c.committed && can then WithReservation(b, c.rid, t) else b)
      else None
    case Sending(t, res) =>
      if c == Proceed then Goes(b.(inbox := b.inbox + {res}), Awaiting(t, res)) else None
    case Awaiting(t, res) =>
      if !c.CreateCall? then None
      else (match c.created
            case Created(id) =>
              if id in b.origin && b.origin[id] == res then Goes(b, Noting(t, res, id)) else None
            case Rejected =>
              if res !in b.inbox && res !in b.origin.Values then Goes(b, Releasing(t, res)) else None
            case Malformed => Ends(b)
            case Unanswered => Ends(b))
    case _ => None
  }

  /** `create_tenant_tunnel` once an id is known, with its except and finally parts. */
  function FinalizeMove(b: Board, r: Request, c: Choice): Option<Move> {
    match r
    case Noting(t, res, id) =>
      if c == Proceed then Becomes(b, Noted(b.store, res, id), Completing(t, res, id))
      else if c.StoreFault? then
        Goes(Faulted(b, Noted(b.store, res, id), c.committed), Compensating(t, res, id))
      else None
    case Completing(t, res, id) =>
      var after := Completed(b.store, t, res, id);
      if c == Proceed then
        Becomes(b, after,
                if Conflicts(b.store, t, res, id) then Compensating(t, res, id)
                else if Owns(b.store, t, res) && IsActive(b.store, t) then Releasing(t, res)
                else CleaningUp(t, res, id))
      else if c.StoreFault? then Goes(Faulted(b, after, c.committed), Compensating(t, res, id))
      else None
    case Releasing(t, res) =>
      if c == Proceed then Ends(b.(store := Released(b.store, res)))
      else if c.StoreFault? then Ends(Faulted(b, Released(b.store, res), c.committed))
      else None
    case _ => None
  }

  /** `admin_disable`. */
  function DisableMove(b: Board, r: Request, c: Choice): Option<Move> {
    match r
    case Disabling(t, now) =>
      if c == Proceed then Becomes(b, DisabledIn(b.store, t, now), ReadingOwned(t))
      else if c.StoreFault? then Ends(Faulted(b, DisabledIn(b.store, t, now), c.committed))
      else None
    case ReadingOwned(t) =>
      if c == Proceed then Goes(b, Sweeping(t, TunnelsOf(b.store, t), {}))
      else if c.StoreFault? then Ends(b) else None
    case Sweeping(t, todo, pending) =>
      if c.Take? && c.id in todo then Goes(b, SweepDelete(t, c.id, todo - {c.id}, pending))
      else if c == Proceed && todo == {} then Goes(b, SweepDone(t, pending))
      else None
    case SweepDone(t, pending) => if c == Proceed then Ends(b) else None
    case _ => None
  }

  /** A handler's next step; death leaves everything else as it is, with no clean-up. */
  function RequestMove(cfg: Settings, b: Board, r: Request, c: Choice): Option<Move> {
    if c == Die then Ends(b)
    else if Unlinking(r) then UnlinkMove(b, r, c)
    else if Deleting(r) then DeleteMove(b, r, c)
    else if r.ReadScope? || r.ListEngine? || r.Tombstones? then LeaseMove(b, r, c)
    else if r.Reserving? || r.Sending? || r.Awaiting? then ProvisionMove(cfg, b, r, c)
    else if r.Noting? || r.Completing? || r.Releasing? then FinalizeMove(b, r, c)
    else DisableMove(b, r, c)
  }

  function At(b: Board, q: RequestId, next: Option<Request>): Board {
    b.(requests := if next.Some? then b.requests[q := next.value] else b.requests - {q})
  }

  /** The reservation a request has taken and not yet let go of. */
  function Held(r: Request): Option<ReservationId> {
    match r
    case Sending(_, res) => Some(res)
    case Awaiting(_, res) => Some(res)
    case Noting(_, res, _) => Some(res)
    case Completing(_, res, _) => Some(res)
    case CleaningUp(_, res, _) => Some(res)
    case UnlinkingCleaned(_, res, _) => Some(res)
    case Compensating(_, res, _) => Some(res)
    case Releasing(_, res) => Some(res)
    case _ => None
  }

  function EnvironmentStep(cfg: Settings, b: Board, a: Action): Option<Board>
    requires !a.Act? && !a.Arrive?
  {
    match a
    case EngineCreates(res, id) =>
      if res in b.inbox && id !in b.issued then
        Some(b.(live := b.live + {id}, issued := b.issued + {id},
                inbox := b.inbox - {res}, origin := b.origin[id := res]))
      else None
    case EngineDrops(res) => Some(b.(inbox := b.inbox - {res}))
    case EngineRemoves(id) => Some(Without(b, id))
    case EngineForeign(id) =>
      if id !in b.issued then Some(b.(live := b.live + {id}, issued := b.issued + {id})) else None
    case SignUpTenant(t, key, now) =>
      if t !in b.store.tenants then
        Some(b.(store := SignedUp(b.store, t, key, cfg.startingCredits, now, cfg.ledgerKeep)))
      else None
    case Meter(t, now) =>
      Some(b.(store := Drained(b.store, t, cfg.creditIntervalS, now, cfg.ledgerKeep)))
    case AdminGrants(t, amount, now) =>
      Some(b.(store := Granted(b.store, t, amount, now, cfg.ledgerKeep)))
    case RotateKey(t, key, now) => Some(b.(store := Rekeyed(b.store, t, key, now)))
  }

  /** A request enters once authenticated; `admin_disable` needs only an existing tenant. */
  predicate MayArrive(b: Board, r: Request) {
    (r.ReadScope? && IsActive(b.store, r.tenant)) || (r.Disabling? && r.tenant in b.store.tenants)
  }

  function Step(cfg: Settings, b: Board, a: Action): Option<Board> {
    match a
    case Act(q, c) =>
      if q !in b.requests then None
      else
        var m := RequestMove(cfg, b, b.requests[q], c);
        if m.None? then None else Some(At(m.value.after, q, m.value.next))
    case Arrive(q, r) =>
      if q !in b.requests && MayArrive(b, r) then Some(At(b, q, Some(r))) else None
    case _ => EnvironmentStep(cfg, b, a)
  }

  /** The state after a sequence of actions, if each of them can happen where it does. */
  function Run(cfg: Settings, b: Board, actions: seq<Action>): Option<Board> {
    if actions == [] then Some(b)
    else
      var before := Run(cfg, b, actions[..|actions| - 1]);
      if before.None? then None else Step(cfg, before.value, actions[|actions| - 1])
  }

  // ----- The invariant -----

  ghost predicate WellFormed(b: Board) {
    && (forall l :: l in b.store.links ==> l.tunnel in b.issued)
    && b.live <= b.issued
    && (forall id :: id in b.origin ==> id in b.issued && b.origin[id] in b.homes && b.origin[id] !in b.inbox)
    && (forall r :: r in b.store.reservations ==>
          r in b.homes && b.homes[r] == b.store.reservations[r].tenant)
    && (forall r :: r in b.inbox ==> r in b.store.reservations)
    && (forall x, y :: x in b.origin && y in b.origin && b.origin[x] == b.origin[y] ==> x == y)
  }

  /** Every live tunnel a request provisioned is still owned or still reserved for. */
  ghost predicate Covered(b: Board)
    requires WellFormed(b)
  {
    forall id :: id in b.live && id in b.origin ==>
      Link(b.homes[b.origin[id]], id) in b.store.links || b.origin[id] in b.store.reservations
  }

  /** Nothing depends on the reservation any more: it can be released. */
  ghost predicate Settled(b: Board, res: ReservationId)
    requires WellFormed(b) && res in b.homes
  {
    && res !in b.inbox
    && forall id :: id in b.live && id in b.origin && b.origin[id] == res ==>
         Link(b.homes[res], id) in b.store.links
  }

  ghost predicate Made(b: Board, res: ReservationId, id: TunnelId) {
    id in b.origin && b.origin[id] == res
  }

  ghost predicate HoldsSlot(b: Board, t: TenantId, res: ReservationId) {
    res in b.store.reservations && b.store.reservations[res].tenant == t
  }

  ghost predicate Gone(b: Board, id: TunnelId) {
    id in b.issued && id !in b.live
  }

  /** What a request in flight relies on, point by point. */
  ghost predicate RequestOk(b: Board, r: Request)
    requires WellFormed(b)
  {
    match r
    case ListEngine(_, scope, _) => scope <= b.issued
    case Tombstones(_, dead, leases, _) => dead <= b.issued && dead !! b.live && leases <= b.issued
    case UnlinkTombstone(_, id, dead, leases, _) =>
      Gone(b, id) && dead <= b.issued && dead !! b.live && leases <= b.issued
    case Sending(t, res) => HoldsSlot(b, t, res) && res !in b.inbox && res !in b.origin.Values
    case Awaiting(t, res) => HoldsSlot(b, t, res)
    case Noting(t, res, id) => HoldsSlot(b, t, res) && Made(b, res, id)
    case Completing(t, res, id) => HoldsSlot(b, t, res) && Made(b, res, id)
    case CleaningUp(t, res, id) => Made(b, res, id) && Settled(b, res)
    case UnlinkingCleaned(t, res, id) => Made(b, res, id) && Settled(b, res) && Gone(b, id)
    case Compensating(t, res, id) => Made(b, res, id)
    case Releasing(t, res) => res in b.homes && Settled(b, res)
    case DeletingLease(_, id) => id in b.issued
    case UnlinkingLease(_, id) => Gone(b, id)
    case Sweeping(_, todo, pending) => todo <= b.issued
    case SweepDelete(_, id, todo, pending) => id in b.issued && todo <= b.issued
    case SweepUnlink(_, id, todo, pending) => Gone(b, id) && todo <= b.issued
    case _ => true
  }

  ghost predicate Capped(cfg: Settings, b: Board) {
    forall t: TenantId :: Occupancy(b.store, t) <= cfg.Cap()
  }

  ghost predicate Exclusive(b: Board) {
    forall p, q :: p in b.requests && q in b.requests && p != q && Held(b.requests[p]).Some? ==>
      Held(b.requests[p]) != Held(b.requests[q])
  }

  ghost predicate RequestsOk(b: Board)
    requires WellFormed(b)
  {
    forall q :: q in b.requests ==> RequestOk(b, b.requests[q])
  }

  ghost predicate Inv(cfg: Settings, b: Board) {
    WellFormed(b) && Covered(b) && Capped(cfg, b) && Exclusive(b) && RequestsOk(b)
  }

  // ----- What no step does to the others -----

  /** All the change a request that does not hold `own` can see. */
  ghost predicate Frame(b: Board, c: Board, own: Option<ReservationId>) {
    && b.issued <= c.issued
    && (forall id :: id in b.issued && id in c.live ==> id in b.live)
    && (forall r :: r in b.homes ==> r in c.homes && c.homes[r] == b.homes[r])
    && (forall id :: id in b.origin ==> id in c.origin && c.origin[id] == b.origin[id])
    && (forall id :: id in c.origin && id !in b.origin ==> c.origin[id] in b.inbox && id !in b.issued)
    && (forall l :: l in b.store.links && l !in c.store.links ==> l.tunnel !in c.live)
    && (forall r :: r in b.homes && own != Some(r) ==>
          && (r in c.store.reservations <==> r in b.store.reservations)
          && (r in c.inbox ==> r in b.inbox))
  }

  lemma RequestFramed(b: Board, c: Board, own: Option<ReservationId>, r: Request)
    requires WellFormed(b) && WellFormed(c) && Frame(b, c, own)
    requires RequestOk(b, r) && (Held(r).Some? ==> Held(r) != own)
    ensures RequestOk(c, r)
  {
    if r.Sending? {
      forall id | id in c.origin ensures c.origin[id] != r.res {
        if id in b.origin { assert b.origin[id] in b.origin.Values; }
      }
    }
  }

  lemma HeldIsKnown(b: Board, r: Request)
    requires WellFormed(b) && RequestOk(b, r)
    ensures Held(r).Some? ==> Held(r).value in b.homes
  {
  }

  /** Tables and engine may change within the frame, and request `q` moves: nothing else suffers. */
  lemma OthersKept(b: Board, m: Board, q: RequestId, next: Option<Request>, own: Option<ReservationId>)
    requires WellFormed(b) && Covered(b) && Exclusive(b) && RequestsOk(b)
    requires WellFormed(m) && Covered(m) && Frame(b, m, own) && m.requests == b.requests
    requires own.Some? ==> q in b.requests && Held(b.requests[q]) == own
    requires next.Some? ==> RequestOk(m, next.value)
    requires next.Some? && Held(next.value).Some? ==>
               || (q in b.requests && Held(b.requests[q]) == Held(next.value))
               || Held(next.value).value !in b.homes
    ensures var d := At(m, q, next);
            WellFormed(d) && Covered(d) && Exclusive(d) && RequestsOk(d)
  {
    var d := At(m, q, next);
    assert WellFormed(d) && Covered(d);
    forall p | p in d.requests
      ensures RequestOk(d, d.requests[p])
      ensures p != q && q in d.requests && Held(d.requests[p]).Some? ==>
                Held(d.requests[p]) != Held(d.requests[q])
    {
      if p == q {
        SameWorld(m, d, d.requests[p]);
      } else {
        HeldIsKnown(b, b.requests[p]);
        RequestFramed(b, m, own, b.requests[p]);
        SameWorld(m, d, d.requests[p]);
      }
    }
  }

  lemma SameWorld(m: Board, d: Board, r: Request)
    requires WellFormed(m) && WellFormed(d) && RequestOk(m, r) && d.(requests := m.requests) == m
    ensures RequestOk(d, r)
  {
  }

  // ----- Counting slots -----

  lemma UnlinkedCount(st: StoreState, t: TenantId, id: TunnelId)
    ensures forall u :: Occupancy(Unlinked(st, t, id), u) <= Occupancy(st, u)
    ensures Link(t, id) in st.links ==> Occupancy(Unlinked(st, t, id), t) < Occupancy(st, t)
  {
    var after := Unlinked(st, t, id);
    forall u ensures Occupancy(after, u) <= Occupancy(st, u) {
      assert ReservationsOf(after, u) == ReservationsOf(st, u);
      SubsetCard(LinksOf(after, u), LinksOf(st, u));
    }
    SubsetCard(LinksOf(after, t), LinksOf(st, t));
    assert ReservationsOf(after, t) == ReservationsOf(st, t);
    if Link(t, id) in st.links {
      assert Link(t, id) in LinksOf(st, t) && Link(t, id) !in LinksOf(after, t);
    }
  }

  lemma ReleasedCount(st: StoreState, rid: ReservationId)
    ensures forall u :: Occupancy(Released(st, rid), u) <= Occupancy(st, u)
  {
    var after := Released(st, rid);
    forall u ensures Occupancy(after, u) <= Occupancy(st, u) {
      assert LinksOf(after, u) == LinksOf(st, u);
      SubsetCard(ReservationsOf(after, u), ReservationsOf(st, u));
    }
  }

  lemma NotedCount(st: StoreState, rid: ReservationId, id: TunnelId)
    ensures forall u :: Occupancy(Noted(st, rid, id), u) == Occupancy(st, u)
  {
    var after := Noted(st, rid, id);
    forall u ensures Occupancy(after, u) == Occupancy(st, u) {
      assert LinksOf(after, u) == LinksOf(st, u);
      assert ReservationsOf(after, u) == ReservationsOf(st, u);
    }
  }

  /** Reservation becomes ownership: the tenant's count does not move. */
  lemma CompletedCount(st: StoreState, t: TenantId, rid: ReservationId, id: TunnelId)
    ensures forall u :: Occupancy(Completed(st, t, rid, id), u) <= Occupancy(st, u)
  {
    if !Conflicts(st, t, rid, id) {
      var after := Completed(st, t, rid, id);
      forall u ensures Occupancy(after, u) <= Occupancy(st, u) {
        if Owns(st, t, rid) && u == t {
          assert LinksOf(after, u) == LinksOf(st, u) + {Link(t, id)};
          assert ReservationsOf(after, u) == ReservationsOf(st, u) - {rid};
          assert rid in ReservationsOf(st, u);
        } else {
          assert LinksOf(after, u) == LinksOf(st, u);
          SubsetCard(ReservationsOf(after, u), ReservationsOf(st, u));
        }
      }
    }
  }

  lemma ReservedCount(st: StoreState, rid: ReservationId, t: TenantId)
    requires rid !in st.reservations
    ensures forall u ::
              Occupancy(Reserved(st, rid, t), u) == Occupancy(st, u) + (if u == t then 1 else 0)
  {
    var after := Reserved(st, rid, t);
    forall u ensures Occupancy(after, u) == Occupancy(st, u) + (if u == t then 1 else 0) {
      assert LinksOf(after, u) == LinksOf(st, u);
      assert ReservationsOf(after, u) == ReservationsOf(st, u) + (if u == t then {rid} else {});
    }
  }

  lemma SameSlotsCount(st: StoreState, after: StoreState)
    requires st.links == after.links && st.reservations == after.reservations
    ensures forall u :: Occupancy(after, u) == Occupancy(st, u)
  {
    forall u ensures Occupancy(after, u) == Occupancy(st, u) {
      assert LinksOf(after, u) == LinksOf(st, u) && ReservationsOf(after, u) == ReservationsOf(st, u);
    }
  }

  // ----- What each effect keeps -----

  lemma UnlinkKeeps(b: Board, t: TenantId, id: TunnelId)
    requires WellFormed(b) && Covered(b) && Gone(b, id)
    ensures var m := b.(store := Unlinked(b.store, t, id));
            WellFormed(m) && Covered(m) && Frame(b, m, None)
  {
  }

  lemma NoteKeeps(b: Board, res: ReservationId, id: TunnelId)
    requires WellFormed(b) && Covered(b)
    ensures var m := b.(store := Noted(b.store, res, id));
            WellFormed(m) && Covered(m) && Frame(b, m, None)
  {
  }

  /** Conversion hands the slot of a created tunnel from its reservation to its link. */
  lemma CompleteKeeps(b: Board, t: TenantId, res: ReservationId, id: TunnelId)
    requires WellFormed(b) && Covered(b) && HoldsSlot(b, t, res) && Made(b, res, id)
    ensures var m := b.(store := Completed(b.store, t, res, id));
            && WellFormed(m) && Covered(m) && Frame(b, m, Some(res))
            && (!Conflicts(b.store, t, res, id) ==> Settled(m, res))
  {
  }

  lemma ReleaseKeeps(b: Board, res: ReservationId)
    requires WellFormed(b) && Covered(b) && res in b.homes && Settled(b, res)
    ensures var m := b.(store := Released(b.store, res));
            WellFormed(m) && Covered(m) && Frame(b, m, Some(res))
  {
  }

  lemma ReserveKeeps(b: Board, rid: ReservationId, t: TenantId)
    requires WellFormed(b) && Covered(b) && rid !in b.homes
    ensures var m := WithReservation(b, rid, t);
            WellFormed(m) && Covered(m) && Frame(b, m, None)
  {
  }

  lemma SendKeeps(b: Board, t: TenantId, res: ReservationId)
    requires WellFormed(b) && Covered(b) && HoldsSlot(b, t, res) && res !in b.origin.Values
    ensures var m := b.(inbox := b.inbox + {res});
            WellFormed(m) && Covered(m) && Frame(b, m, Some(res))
  {
    forall id | id in b.origin ensures b.origin[id] != res {
      assert b.origin[id] in b.origin.Values;
    }
  }

  lemma RemoveKeeps(b: Board, id: TunnelId)
    requires WellFormed(b) && Covered(b)
    ensures WellFormed(Without(b, id)) && Covered(Without(b, id)) && Frame(b, Without(b, id), None)
  {
  }

  lemma EngineCreatesKeeps(b: Board, res: ReservationId, id: TunnelId)
    requires WellFormed(b) && Covered(b) && res in b.inbox && id !in b.issued
    ensures var m := b.(live := b.live + {id}, issued := b.issued + {id},
                        inbox := b.inbox - {res}, origin := b.origin[id := res]);
            WellFormed(m) && Covered(m) && Frame(b, m, None)
  {
  }

  lemma TenantsKeep(b: Board, st: StoreState)
    requires WellFormed(b) && Covered(b)
    requires st.links == b.store.links && st.reservations == b.store.reservations
    ensures var m := b.(store := st); WellFormed(m) && Covered(m) && Frame(b, m, None)
  {
  }

  // ----- One step -----

  /** What a handler's step must leave behind for the invariant to survive it. */
  ghost predicate MoveOk(b: Board, r: Request, m: Move) {
    && m.after.requests == b.requests
    && WellFormed(m.after) && Covered(m.after) && Frame(b, m.after, Held(r))
    && (m.next.Some? ==>
          && RequestOk(m.after, m.next.value)
          && (Held(m.next.value).Some? ==>
                Held(m.next.value) == Held(r) || Held(m.next.value).value !in b.homes))
  }

  lemma DeleteKeeps(b: Board, id: TunnelId, reply: DeleteReply)
    requires WellFormed(b) && Covered(b) && Honest(b, id, reply)
    ensures var m := Removed(b, id, reply);
            && WellFormed(m) && Covered(m) && Frame(b, m, None) && m.requests == b.requests
            && (!reply.Failed? ==> id !in m.live)
            && m.store == b.store && m.issued == b.issued && m.origin == b.origin && m.homes == b.homes
            && m.inbox == b.inbox && m.live <= b.live
  {
    RemoveKeeps(b, id);
  }

  /** An unlink step: the call commits, or raises having committed or not. */
  lemma UnlinkStepOk(b: Board, r: Request, t: TenantId, id: TunnelId, committed: bool, next: Option<Request>)
    requires WellFormed(b) && Covered(b) && Gone(b, id)
    requires next.Some? ==> RequestOk(b, next.value) && Held(next.value) == Held(r)
    ensures MoveOk(b, r, Move(Faulted(b, Unlinked(b.store, t, id), committed), next))
  {
    if committed {
      UnlinkKeeps(b, t, id);
      var m := b.(store := Unlinked(b.store, t, id));
      if next.Some? { UnlinkFramesRequest(b, t, id, next.value); }
    }
  }

  lemma UnlinkFramesRequest(b: Board, t: TenantId, id: TunnelId, r: Request)
    requires WellFormed(b) && Covered(b) && Gone(b, id) && RequestOk(b, r)
    ensures var m := b.(store := Unlinked(b.store, t, id)); WellFormed(m) && RequestOk(m, r)
  {
  }

  lemma DeleteFramesRequest(b: Board, id: TunnelId, reply: DeleteReply, r: Request)
    requires WellFormed(b) && RequestOk(b, r)
    ensures WellFormed(Removed(b, id, reply)) && RequestOk(Removed(b, id, reply), r)
  {
  }

  /** In clean-up, a delete answered by success or 404 leaves the reservation nothing to cover. */
  lemma DeleteMoveOk(b: Board, r: Request, c: Choice)
    requires WellFormed(b) && Covered(b) && RequestOk(b, r) && Deleting(r) && DeleteMove(b, r, c).Some?
    ensures MoveOk(b, r, DeleteMove(b, r, c).value)
  {
    hide WellFormed, Covered, Frame, RequestOk, Removed;
    DeleteKeeps(b, r.id, c.deleted);
    WeakerFrame(b, Removed(b, r.id, c.deleted), Held(r));
    AfterDeleteOk(b, r, c.deleted);
  }

  lemma WeakerFrame(b: Board, m: Board, own: Option<ReservationId>)
    requires Frame(b, m, None)
    ensures Frame(b, m, own)
  {
  }

  /** Where the delete's answer leads is a place the request can stand at. */
  lemma AfterDeleteOk(b: Board, r: Request, reply: DeleteReply)
    requires WellFormed(b) && Covered(b) && RequestOk(b, r) && Deleting(r) && Honest(b, r.id, reply)
    ensures var m := Removed(b, r.id, reply);
            var next := AfterDelete(r, reply);
            && WellFormed(m)
            && (next.Some? ==> RequestOk(m, next.value) && Held(next.value) == Held(r))
  {
    DeleteFramesRequest(b, r.id, reply, r);
  }

  lemma UnlinkMoveOk(b: Board, r: Request, c: Choice)
    requires WellFormed(b) && Covered(b) && RequestOk(b, r) && Unlinking(r) && UnlinkMove(b, r, c).Some?
    ensures MoveOk(b, r, UnlinkMove(b, r, c).value)
  {
    UnlinkStepOk(b, r, r.tenant, r.id, c == Proceed || c.committed, AfterUnlink(r, c.StoreFault?));
  }

  lemma CompleteOk(b: Board, r: Request, c: Choice)
    requires WellFormed(b) && Covered(b) && RequestOk(b, r) && r.Completing? && FinalizeMove(b, r, c).Some?
    ensures MoveOk(b, r, FinalizeMove(b, r, c).value)
  {
    hide Frame, Covered, Completed, Settled;
    CompleteKeeps(b, r.tenant, r.res, r.id);
    FrameSame(b, Held(r));
  }

  lemma FrameSame(b: Board, own: Option<ReservationId>)
    requires WellFormed(b)
    ensures Frame(b, b, own)
  {
  }

  /** The scope was read before the listing, so what the listing lacks is gone for good. */
  lemma ListedOk(b: Board, r: Request, c: Choice)
    requires WellFormed(b) && Covered(b) && RequestOk(b, r) && r.ListEngine? && LeaseMove(b, r, c).Some?
    ensures MoveOk(b, r, LeaseMove(b, r, c).value)
  {
  }

  lemma ScopeOk(b: Board, r: Request, c: Choice)
    requires WellFormed(b) && Covered(b) && r.ReadScope? && LeaseMove(b, r, c).Some?
    ensures MoveOk(b, r, LeaseMove(b, r, c).value)
  {
  }

  lemma TombstonesOk(b: Board, r: Request, c: Choice)
    requires WellFormed(b) && Covered(b) && RequestOk(b, r) && r.Tombstones? && LeaseMove(b, r, c).Some?
    ensures MoveOk(b, r, LeaseMove(b, r, c).value)
  {
    var m := LeaseMove(b, r, c).value;
    assert m.after == b;
    if m.next.Some? {
      assert RequestOk(b, m.next.value);
    }
  }

  lemma LeaseMoveOk(b: Board, r: Request, c: Choice)
    requires WellFormed(b) && Covered(b) && RequestOk(b, r) && LeaseMove(b, r, c).Some?
    ensures MoveOk(b, r, LeaseMove(b, r, c).value)
  {
    if r.ReadScope? { ScopeOk(b, r, c); }
    else if r.ListEngine? { ListedOk(b, r, c); }
    else { TombstonesOk(b, r, c); }
  }

  lemma ReservingOk(cfg: Settings, b: Board, r: Request, c: Choice)
    requires WellFormed(b) && Covered(b) && r.Reserving? && ProvisionMove(cfg, b, r, c).Some?
    ensures MoveOk(b, r, ProvisionMove(cfg, b, r, c).value)
  {
    hide Frame, Covered;
    FrameSame(b, Held(r));
    ReserveKeeps(b, c.rid, r.tenant);
    WeakerFrame(b, WithReservation(b, c.rid, r.tenant), Held(r));
    assert forall id :: id in b.origin ==> b.origin[id] in b.homes;
  }

  /** A 4xx means nothing was made and nothing will be: the reservation covers nothing. */
  lemma AwaitingOk(cfg: Settings, b: Board, r: Request, c: Choice)
    requires WellFormed(b) && Covered(b) && RequestOk(b, r) && r.Awaiting? && ProvisionMove(cfg, b, r, c).Some?
    ensures MoveOk(b, r, ProvisionMove(cfg, b, r, c).value)
  {
    if c.created == Rejected {
      forall id | id in b.origin ensures b.origin[id] != r.res {
        assert b.origin[id] in b.origin.Values;
      }
    }
  }

  lemma ProvisionMoveOk(cfg: Settings, b: Board, r: Request, c: Choice)
    requires WellFormed(b) && Covered(b) && RequestOk(b, r) && ProvisionMove(cfg, b, r, c).Some?
    ensures MoveOk(b, r, ProvisionMove(cfg, b, r, c).value)
  {
    if r.Reserving? { ReservingOk(cfg, b, r, c); }
    else if r.Sending? { SendKeeps(b, r.tenant, r.res); }
    else { AwaitingOk(cfg, b, r, c); }
  }

  lemma NoteFramesRequest(b: Board, res: ReservationId, id: TunnelId, r: Request)
    requires WellFormed(b) && RequestOk(b, r)
    ensures var m := b.(store := Noted(b.store, res, id)); WellFormed(m) && RequestOk(m, r)
  {
  }

  lemma NoteStepOk(b: Board, r: Request, committed: bool, next: Request)
    requires WellFormed(b) && Covered(b) && r.Noting? && RequestOk(b, next) && Held(next) == Held(r)
    ensures MoveOk(b, r, Move(Faulted(b, Noted(b.store, r.res, r.id), committed), Some(next)))
  {
    if committed {
      NoteKeeps(b, r.res, r.id);
      NoteFramesRequest(b, r.res, r.id, next);
    }
  }

  lemma NoteOk(b: Board, r: Request, c: Choice)
    requires WellFormed(b) && Covered(b) && RequestOk(b, r) && r.Noting? && FinalizeMove(b, r, c).Some?
    ensures MoveOk(b, r, FinalizeMove(b, r, c).value)
  {
    if c == Proceed {
      NoteStepOk(b, r, true, Completing(r.tenant, r.res, r.id));
    } else {
      NoteStepOk(b, r, c.committed, Compensating(r.tenant, r.res, r.id));
    }
  }

  lemma ReleaseOk(b: Board, r: Request, c: Choice)
    requires WellFormed(b) && Covered(b) && RequestOk(b, r) && r.Releasing? && FinalizeMove(b, r, c).Some?
    ensures MoveOk(b, r, FinalizeMove(b, r, c).value)
  {
    ReleaseKeeps(b, r.res);
  }

  lemma FinalizeMoveOk(b: Board, r: Request, c: Choice)
    requires WellFormed(b) && Covered(b) && RequestOk(b, r) && FinalizeMove(b, r, c).Some?
    ensures MoveOk(b, r, FinalizeMove(b, r, c).value)
  {
    if r.Noting? { NoteOk(b, r, c); }
    else if r.Completing? { CompleteOk(b, r, c); }
    else { ReleaseOk(b, r, c); }
  }

  lemma DisablingOk(b: Board, r: Request, c: Choice)
    requires WellFormed(b) && Covered(b) && r.Disabling? && DisableMove(b, r, c).Some?
    ensures MoveOk(b, r, DisableMove(b, r, c).value)
  {
    TenantsKeep(b, DisabledIn(b.store, r.tenant, r.now));
  }

  lemma DisableMoveOk(b: Board, r: Request, c: Choice)
    requires WellFormed(b) && Covered(b) && RequestOk(b, r) && DisableMove(b, r, c).Some?
    ensures MoveOk(b, r, DisableMove(b, r, c).value)
  {
    if r.Disabling? { DisablingOk(b, r, c); }
  }

  lemma RequestMoveOk(cfg: Settings, b: Board, r: Request, c: Choice)
    requires WellFormed(b) && Covered(b) && RequestOk(b, r) && RequestMove(cfg, b, r, c).Some?
    ensures MoveOk(b, r, RequestMove(cfg, b, r, c).value)
  {
    if c != Die {
      if Unlinking(r) { UnlinkMoveOk(b, r, c); }
      else if Deleting(r) { DeleteMoveOk(b, r, c); }
      else if LeaseMove(b, r, c).Some? { LeaseMoveOk(b, r, c); }
      else if ProvisionMove(cfg, b, r, c).Some? { ProvisionMoveOk(cfg, b, r, c); }
      else if FinalizeMove(b, r, c).Some? { FinalizeMoveOk(b, r, c); }
      else { DisableMoveOk(b, r, c); }
    }
  }

  lemma EnvironmentKeeps(cfg: Settings, b: Board, a: Action)
    requires WellFormed(b) && Covered(b)
    requires !a.Act? && !a.Arrive? && EnvironmentStep(cfg, b, a).Some?
    ensures var m := EnvironmentStep(cfg, b, a).value;
            WellFormed(m) && Covered(m) && Frame(b, m, None) && m.requests == b.requests
  {
    match a {
      case EngineCreates(res, id) => EngineCreatesKeeps(b, res, id);
      case EngineDrops(res) =>
      case EngineRemoves(id) => RemoveKeeps(b, id);
      case EngineForeign(id) =>
      case SignUpTenant(_, _, _) => TenantsKeep(b, EnvironmentStep(cfg, b, a).value.store);
      case Meter(_, _) => TenantsKeep(b, EnvironmentStep(cfg, b, a).value.store);
      case AdminGrants(_, _, _) => TenantsKeep(b, EnvironmentStep(cfg, b, a).value.store);
      case RotateKey(_, _, _) => TenantsKeep(b, EnvironmentStep(cfg, b, a).value.store);
    }
  }

  // ----- Slots over one step -----

  /** The slot change of a handler's step: only a reservation by an active tenant adds one. */
  ghost predicate SlotsStep(cfg: Settings, st: StoreState, after: StoreState) {
    forall u: TenantId ::
      || Occupancy(after, u) <= Occupancy(st, u)
      || (IsActive(st, u) && Occupancy(st, u) < cfg.maxTunnels
          && Occupancy(after, u) == Occupancy(st, u) + 1)
  }

  lemma UnlinkSlots(cfg: Settings, st: StoreState, t: TenantId, id: TunnelId)
    ensures SlotsStep(cfg, st, Unlinked(st, t, id))
  {
    UnlinkedCount(st, t, id);
  }

  lemma ReserveSlots(cfg: Settings, b: Board, r: Request, c: Choice)
    requires WellFormed(b) && r.Reserving? && ProvisionMove(cfg, b, r, c).Some?
    ensures SlotsStep(cfg, b.store, ProvisionMove(cfg, b, r, c).value.after.store)
  {
    SameSlotsCount(b.store, b.store);
    ReservedCount(b.store, c.rid, r.tenant);
  }

  lemma FinalizeSlots(cfg: Settings, b: Board, r: Request, c: Choice)
    requires FinalizeMove(b, r, c).Some?
    ensures SlotsStep(cfg, b.store, FinalizeMove(b, r, c).value.after.store)
  {
    SameSlotsCount(b.store, b.store);
    if r.Noting? { NotedCount(b.store, r.res, r.id); }
    else if r.Completing? { CompletedCount(b.store, r.tenant, r.res, r.id); }
    else if r.Releasing? { ReleasedCount(b.store, r.res); }
  }

  lemma MoveSlots(cfg: Settings, b: Board, r: Request, c: Choice)
    requires WellFormed(b) && RequestMove(cfg, b, r, c).Some?
    ensures SlotsStep(cfg, b.store, RequestMove(cfg, b, r, c).value.after.store)
  {
    hide Occupancy, WellFormed, Completed, Noted, Released, Reserved;
    SameSlotsCount(b.store, b.store);
    if c != Die {
      if Unlinking(r) {
        UnlinkSlots(cfg, b.store, r.tenant, r.id);
      } else if r.Reserving? {
        ReserveSlots(cfg, b, r, c);
      } else if r.Noting? || r.Completing? || r.Releasing? {
        FinalizeSlots(cfg, b, r, c);
      } else {
        SlotsUntouched(cfg, b, r, c);
        SameSlotsCount(b.store, RequestMove(cfg, b, r, c).value.after.store);
      }
    }
  }

  /** Only unlinking, reserving, noting, completing and releasing touch the slot tables. */
  lemma SlotsUntouched(cfg: Settings, b: Board, r: Request, c: Choice)
    requires RequestMove(cfg, b, r, c).Some?
    requires !Unlinking(r) && !r.Reserving? && !r.Noting? && !r.Completing? && !r.Releasing?
    ensures var after := RequestMove(cfg, b, r, c).value.after.store;
            after.links == b.store.links && after.reservations == b.store.reservations
  {
  }

  lemma StepSlots(cfg: Settings, b: Board, a: Action)
    requires WellFormed(b) && Step(cfg, b, a).Some?
    ensures SlotsStep(cfg, b.store, Step(cfg, b, a).value.store)
  {
    if a.Act? {
      MoveSlots(cfg, b, b.requests[a.q], a.choice);
    } else {
      SameSlotsCount(b.store, Step(cfg, b, a).value.store);
    }
  }

  /** The reservation whose holder a step moves. */
  function Mover(b: Board, a: Action): Option<ReservationId> {
    if a.Act? && a.q in b.requests then Held(b.requests[a.q]) else None
  }

  lemma ActKeeps(cfg: Settings, b: Board, q: RequestId, c: Choice)
    requires Inv(cfg, b) && Step(cfg, b, Act(q, c)).Some?
    ensures var d := Step(cfg, b, Act(q, c)).value;
            && WellFormed(d) && Covered(d) && Exclusive(d) && RequestsOk(d)
            && Frame(b, d, Held(b.requests[q]))
  {
    var r := b.requests[q];
    RequestMoveOk(cfg, b, r, c);
    var m := RequestMove(cfg, b, r, c).value;
    OthersKept(b, m.after, q, m.next, Held(r));
  }

  lemma EnvironmentStepKeeps(cfg: Settings, b: Board, a: Action)
    requires Inv(cfg, b) && !a.Act? && !a.Arrive? && EnvironmentStep(cfg, b, a).Some?
    ensures var d := EnvironmentStep(cfg, b, a).value;
            && WellFormed(d) && Covered(d) && Exclusive(d) && RequestsOk(d)
            && Frame(b, d, None)
  {
    EnvironmentKeeps(cfg, b, a);
    var m := EnvironmentStep(cfg, b, a).value;
    forall q | q in m.requests ensures RequestOk(m, m.requests[q]) {
      RequestFramed(b, m, None, b.requests[q]);
    }
  }

  lemma StepKeeps(cfg: Settings, b: Board, a: Action)
    requires Inv(cfg, b) && Step(cfg, b, a).Some?
    ensures Inv(cfg, Step(cfg, b, a).value)
    ensures Frame(b, Step(cfg, b, a).value, Mover(b, a))
  {
    StepSlots(cfg, b, a);
    if a.Act? {
      ActKeeps(cfg, b, a.q, a.choice);
    } else if a.Arrive? {
      OthersKept(b, b, a.q, Some(a.request), None);
    } else {
      EnvironmentStepKeeps(cfg, b, a);
    }
  }
}
