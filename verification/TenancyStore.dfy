/**
  The control center's SQLite store: tenants, ledger, lease ownership and lease
  reservations. `StoreState` is the content of the four tables; the functions over
  it say what each transaction does; class `TenantsStore` performs them in place.
 */
module TenancyStore {
  import opened Wrappers

  type TenantId = string
  type TunnelId = string
  type ReservationId = string

  datatype TenantState = Draft | Active | Disabled

  /** The columns of `tenants` that leasing and metering read or write. */
  datatype Tenant = Tenant(
    key: string,
    state: TenantState,
    credits: real,
    creditedS: Option<real>,
    updatedS: real
  )

  /** `Metered` carries the hours billed and the part of the bill the balance did not cover. */
  datatype Reason = SignupGrant | AdminGrant | Metered(hours: int, shortfall: real)

  datatype LedgerEntry = LedgerEntry(atS: real, tenant: TenantId, delta: real, reason: Reason)

  /** A stored ledger entry with the rowid SQLite gave it. */
  datatype LedgerRow = LedgerRow(rowid: nat, entry: LedgerEntry)

  /** A row of `tenant_tunnels`, whose primary key is the pair. */
  datatype Link = Link(tenant: TenantId, tunnel: TunnelId)

  /** A row of `tunnel_reservations`; `tunnel` is null until the engine's reply is noted. */
  datatype Reservation = Reservation(tenant: TenantId, tunnel: Option<TunnelId>)

  datatype StoreState = StoreState(
    tenants: map<TenantId, Tenant>,
    ledger: seq<LedgerRow>,
    links: set<Link>,
    reservations: map<ReservationId, Reservation>
  )

  // ----- Lease slots -----

  function LinksOf(st: StoreState, t: TenantId): set<Link> {
    set l | l in st.links && l.tenant == t
  }

  function TunnelsOf(st: StoreState, t: TenantId): set<TunnelId> {
    set l | l in st.links && l.tenant == t :: l.tunnel
  }

  function ReservationsOf(st: StoreState, t: TenantId): set<ReservationId> {
    set r | r in st.reservations && st.reservations[r].tenant == t
  }

  /** The slots a tenant occupies: owned leases plus reservations. */
  function Occupancy(st: StoreState, t: TenantId): nat {
    |LinksOf(st, t)| + |ReservationsOf(st, t)|
  }

  predicate IsActive(st: StoreState, t: TenantId) {
    t in st.tenants && st.tenants[t].state == Active
  }

  /** The WHERE clause of the guarded INSERT. */
  predicate CanReserve(st: StoreState, t: TenantId, cap: int, minCredits: real) {
    IsActive(st, t) && st.tenants[t].credits >= minCredits && Occupancy(st, t) < cap
  }

  function Reserved(st: StoreState, rid: ReservationId, t: TenantId): StoreState {
    st.(reservations := st.reservations[rid := Reservation(t, None)])
  }

  function Noted(st: StoreState, rid: ReservationId, id: TunnelId): StoreState {
    if rid in st.reservations
    then st.(reservations := st.reservations[rid := st.reservations[rid].(tunnel := Some(id))])
    else st
  }

  function Released(st: StoreState, rid: ReservationId): StoreState {
    st.(reservations := st.reservations - {rid})
  }

  /** The INSERT of `complete_reservation` selects a row only for this tenant's reservation. */
  predicate Owns(st: StoreState, t: TenantId, rid: ReservationId) {
    rid in st.reservations && st.reservations[rid].tenant == t
  }

  /** Inserting a lease that is already stored violates the primary key and rolls back. */
  predicate Conflicts(st: StoreState, t: TenantId, rid: ReservationId, id: TunnelId) {
    Owns(st, t, rid) && Link(t, id) in st.links
  }

  function Completed(st: StoreState, t: TenantId, rid: ReservationId, id: TunnelId): StoreState {
    if Conflicts(st, t, rid, id) then st
    else
      Released(st, rid).(links := if Owns(st, t, rid) then st.links + {Link(t, id)} else st.links)
  }

  function Unlinked(st: StoreState, t: TenantId, id: TunnelId): StoreState {
    st.(links := st.links - {Link(t, id)})
  }

  function WithTenant(st: StoreState, t: TenantId, row: Tenant): StoreState {
    st.(tenants := st.tenants[t := row])
  }

  function DisabledIn(st: StoreState, t: TenantId, now: real): StoreState {
    if t in st.tenants
    then WithTenant(st, t, st.tenants[t].(state := Disabled, updatedS := now))
    else st
  }

  function Rekeyed(st: StoreState, t: TenantId, key: string, now: real): StoreState {
    if t in st.tenants
    then WithTenant(st, t, st.tenants[t].(key := key, updatedS := now))
    else st
  }

  // ----- The ledger table -----

  /** SQLite gives a new row one more than the largest rowid in the table. */
  function NextRowid(rows: seq<LedgerRow>): (id: nat)
    ensures forall k :: 0 <= k < |rows| ==> rows[k].rowid < id
  {
    if rows == [] then 1
    else
      var rest := NextRowid(rows[..|rows| - 1]);
      var last := rows[|rows| - 1].rowid;
      if last < rest then rest else last + 1
  }

  function Appended(rows: seq<LedgerRow>, e: LedgerEntry): seq<LedgerRow> {
    rows + [LedgerRow(NextRowid(rows), e)]
  }

  /** Place a younger row before the first row that is not later than it. */
  function InsertNewest(row: LedgerRow, sorted: seq<LedgerRow>): seq<LedgerRow> {
    if sorted == [] || sorted[0].entry.atS <= row.entry.atS then [row] + sorted
    else [sorted[0]] + InsertNewest(row, sorted[1..])
  }

  /** One tenant's rows ORDER BY at_s DESC, rowid DESC; the table is in rowid order. */
  function NewestFirst(rows: seq<LedgerRow>, t: TenantId): seq<LedgerRow> {
    if rows == [] then []
    else
      var rest := NewestFirst(rows[..|rows| - 1], t);
      var last := rows[|rows| - 1];
      if last.entry.tenant == t then InsertNewest(last, rest) else rest
  }

  function Take<T>(s: seq<T>, k: int): seq<T> {
    if k <= 0 then [] else if k < |s| then s[..k] else s
  }

  /** The ledger query with its LIMIT, which SQLite ignores when negative. */
  function QueryRows(rows: seq<LedgerRow>, t: TenantId, limit: int): seq<LedgerRow> {
    if limit < 0 then NewestFirst(rows, t) else Take(NewestFirst(rows, t), limit)
  }

  function Rowids(rows: seq<LedgerRow>): set<nat> {
    set k | 0 <= k < |rows| :: rows[k].rowid
  }

  /** Rows of other tenants, and rows of this tenant with a rowid in `kept`. */
  function Retain(rows: seq<LedgerRow>, t: TenantId, kept: set<nat>): seq<LedgerRow> {
    if rows == [] then []
    else
      var rest := Retain(rows[..|rows| - 1], t, kept);
      var last := rows[|rows| - 1];
      if last.entry.tenant != t || last.rowid in kept then rest + [last] else rest
  }

  /** Drop all but the tenant's newest `keep` rows. */
  function Pruned(rows: seq<LedgerRow>, t: TenantId, keep: int): seq<LedgerRow> {
    Retain(rows, t, Rowids(Take(NewestFirst(rows, t), keep)))
  }

  function Recorded(st: StoreState, e: LedgerEntry, keep: int): StoreState {
    st.(ledger := Pruned(Appended(st.ledger, e), e.tenant, keep))
  }

  // ----- Credits -----

  function Max(a: real, b: real): real { if a < b then b else a }

  function Min(a: real, b: real): real { if b < a then b else a }

  /** A tenant row the meter bills at `now`. */
  predicate Billable(row: Tenant, interval: int, now: real) {
    row.state == Active && interval > 0 && row.creditedS.Some? && Periods(row, interval, now) > 0
  }

  /** Whole periods since the boundary: `int((now - credited_s) // interval)`. */
  function Periods(row: Tenant, interval: int, now: real): int
    requires interval > 0 && row.creditedS.Some?
  {
    ((now - row.creditedS.value) / interval as real).Floor
  }

  /** What the balance can pay of a bill. */
  function Payable(row: Tenant, due: real): real {
    Min(due, Max(0.0, row.credits))
  }

  function ChargedAmount(row: Tenant, interval: int, now: real): real {
    if Billable(row, interval, now) then Payable(row, Periods(row, interval, now) as real) else 0.0
  }

  function ChargedRow(row: Tenant, interval: int, now: real): Tenant {
    if Billable(row, interval, now) then
      row.(
        credits := row.credits - ChargedAmount(row, interval, now),
        creditedS := Some(row.creditedS.value + (Periods(row, interval, now) * interval) as real),
        updatedS := now
      )
    else row
  }

  function MeterEntry(t: TenantId, row: Tenant, interval: int, now: real): LedgerEntry
    requires Billable(row, interval, now)
  {
    var periods := Periods(row, interval, now);
    var paid := ChargedAmount(row, interval, now);
    LedgerEntry(now, t, -paid, Metered(periods * interval / 3600, periods as real - paid))
  }

  function Drained(st: StoreState, t: TenantId, interval: int, now: real, keep: int): StoreState {
    if t in st.tenants && Billable(st.tenants[t], interval, now) then
      Recorded(WithTenant(st, t, ChargedRow(st.tenants[t], interval, now)),
               MeterEntry(t, st.tenants[t], interval, now), keep)
    else st
  }

  function Granted(st: StoreState, t: TenantId, amount: real, now: real, keep: int): StoreState {
    if t in st.tenants then
      var row := st.tenants[t];
      Recorded(WithTenant(st, t, row.(credits := row.credits + amount, updatedS := now)),
               LedgerEntry(now, t, amount, AdminGrant), keep)
    else st
  }

  /** `save_tenant` of a fresh tenant followed by the starting grant, as one step. */
  function SignedUp(st: StoreState, t: TenantId, key: string, starting: real, now: real, keep: int)
    : StoreState
  {
    Recorded(WithTenant(st, t, Tenant(key, Active, starting, Some(now), now)),
             LedgerEntry(now, t, starting, SignupGrant), keep)
  }

  /** The caller's in-memory tenant, refreshed in place by the meter. */
  class TenantHandle {
    const id: TenantId
    var row: Tenant

    constructor (id: TenantId, row: Tenant)
      ensures this.id == id && this.row == row
    {
      this.id := id;
      this.row := row;
    }
  }

  class TenantsStore {
    var tenants: map<TenantId, Tenant>
    var ledger: seq<LedgerRow>
    var links: set<Link>
    var reservations: map<ReservationId, Reservation>

    /** The content of the four tables. */
    function View(): StoreState
      reads this
    {
      StoreState(tenants, ledger, links, reservations)
    }

    constructor ()
      ensures View() == StoreState(map[], [], {}, map[])
    {
      tenants, ledger, links, reservations := map[], [], {}, map[];
    }

    method GetTenant(t: TenantId) returns (row: Option<Tenant>)
      ensures row == if t in tenants then Some(tenants[t]) else None
    {
      row := if t in tenants then Some(tenants[t]) else None;
    }

    method GetTunnelsOf(t: TenantId) returns (ids: set<TunnelId>)
      ensures forall id :: id in ids <==> Link(t, id) in links
    {
      ids := set l | l in links && l.tenant == t :: l.tunnel;
      forall id ensures id in ids <==> Link(t, id) in links {
        if Link(t, id) in links { assert Link(t, id).tunnel in ids; }
      }
    }

    /** The latest `keep` entries, newest first. */
    method Ledger(t: TenantId, keep: int) returns (entries: seq<LedgerEntry>)
      ensures |entries| == |QueryRows(ledger, t, keep)|
      ensures forall k :: 0 <= k < |entries| ==> entries[k] == QueryRows(ledger, t, keep)[k].entry
    {
      var rows := QueryRows(ledger, t, keep);
      entries := [];
      for i := 0 to |rows|
        invariant |entries| == i && forall k :: 0 <= k < i ==> entries[k] == rows[k].entry
      {
        entries := entries + [rows[i].entry];
      }
    }

    method ReserveTunnel(rid: ReservationId, t: TenantId, cap: int, minCredits: real)
      returns (got: Option<ReservationId>)
      modifies this`reservations
      ensures got == if CanReserve(old(View()), t, cap, minCredits) then Some(rid) else None
      ensures View() == if got.Some? then Reserved(old(View()), rid, t) else old(View())
    {
      got := None;
      if t in tenants && tenants[t].state == Active && tenants[t].credits >= minCredits {
        var owned := set l | l in links && l.tenant == t;
        var held := set r | r in reservations && reservations[r].tenant == t;
        if |owned| + |held| < cap {
          reservations := reservations[rid := Reservation(t, None)];
          got := Some(rid);
        }
      }
    }

    method NoteReservationTunnel(rid: ReservationId, id: TunnelId)
      modifies this`reservations
      ensures View() == Noted(old(View()), rid, id)
    {
      if rid in reservations {
        reservations := reservations[rid := reservations[rid].(tunnel := Some(id))];
      }
    }

    method ReleaseReservation(rid: ReservationId)
      modifies this`reservations
      ensures View() == Released(old(View()), rid)
    {
      reservations := reservations - {rid};
    }

    /** `None` is the primary-key violation; otherwise whether the tenant owns it and is active. */
    method CompleteReservation(t: TenantId, rid: ReservationId, id: TunnelId)
      returns (active: Option<bool>)
      modifies this`reservations, this`links
      ensures View() == Completed(old(View()), t, rid, id)
      ensures active == if Conflicts(old(View()), t, rid, id) then None
                        else Some(Owns(old(View()), t, rid) && IsActive(old(View()), t))
    {
      var selected := rid in reservations && reservations[rid].tenant == t;
      if selected && Link(t, id) in links {
        return None;
      }
      if selected {
        links := links + {Link(t, id)};
      }
      reservations := reservations - {rid};
      active := Some(selected && t in tenants && tenants[t].state == Active);
    }

    method UnlinkTunnel(t: TenantId, id: TunnelId)
      modifies this`links
      ensures View() == Unlinked(old(View()), t, id)
    {
      links := links - {Link(t, id)};
    }

    method Disable(t: TenantId, now: real)
      modifies this`tenants
      ensures View() == DisabledIn(old(View()), t, now)
    {
      if t in tenants {
        tenants := tenants[t := tenants[t].(state := Disabled, updatedS := now)];
      }
    }

    method SetKey(t: TenantId, key: string, now: real)
      modifies this`tenants
      ensures View() == Rekeyed(old(View()), t, key, now)
    {
      if t in tenants {
        tenants := tenants[t := tenants[t].(key := key, updatedS := now)];
      }
    }

    /** Append one entry, then drop the tenant's rows beyond the newest `keep`. */
    method Record(e: LedgerEntry, keep: int)
      modifies this`ledger
      ensures View() == Recorded(old(View()), e, keep)
    {
      ledger := ledger + [LedgerRow(NextRowid(ledger), e)];
      PruneLedger(e.tenant, keep);
    }

    /** DELETE of the tenant's rows whose rowid is not among the newest `keep`, row by row. */
    method PruneLedger(t: TenantId, keep: int)
      modifies this`ledger
      ensures ledger == Pruned(old(ledger), t, keep)
    {
      var kept := Rowids(Take(NewestFirst(ledger, t), keep));
      var rows, n := [], 0;
      while n < |ledger|
        invariant 0 <= n <= |ledger|
        invariant rows == Retain(ledger[..n], t, kept)
      {
        assert ledger[..n + 1][..n] == ledger[..n];
        if ledger[n].entry.tenant != t || ledger[n].rowid in kept {
          rows := rows + [ledger[n]];
        }
        n := n + 1;
      }
      assert ledger[..n] == ledger;
      ledger := rows;
    }

    /** Balance, boundary and ledger entry move together or not at all. */
    method Drain(t: TenantId, interval: int, now: real, keep: int)
      returns (row: Option<Tenant>, actual: real)
      modifies this`tenants, this`ledger
      ensures View() == Drained(old(View()), t, interval, now, keep)
      ensures row == if t in tenants then Some(tenants[t]) else None
      ensures actual == if t in old(tenants) then ChargedAmount(old(tenants)[t], interval, now) else 0.0
    {
      hide Recorded, Min, Max;
      if t !in tenants {
        return None, 0.0;
      }
      var tenant := tenants[t];
      if tenant.state != Active || interval <= 0 || tenant.creditedS.None? {
        return Some(tenant), 0.0;
      }
      var periods := ((now - tenant.creditedS.value) / interval as real).Floor;
      if periods <= 0 {
        return Some(tenant), 0.0;
      }
      var due := periods as real;
      actual := Min(due, Max(0.0, tenant.credits));
      var boundary := tenant.creditedS.value + (periods * interval) as real;
      var charged :=
        tenant.(credits := tenant.credits - actual, creditedS := Some(boundary), updatedS := now);
      tenants := tenants[t := charged];
      Record(LedgerEntry(now, t, -actual, Metered(periods * interval / 3600, due - actual)), keep);
      row := Some(charged);
    }

    /** False is the source's TenantNotFound; nothing is written then. */
    method Grant(t: TenantId, amount: real, now: real, keep: int) returns (found: bool)
      modifies this`tenants, this`ledger
      ensures found <==> t in old(tenants)
      ensures View() == Granted(old(View()), t, amount, now, keep)
    {
      if t !in tenants {
        return false;
      }
      tenants := tenants[t := tenants[t].(credits := tenants[t].credits + amount, updatedS := now)];
      Record(LedgerEntry(now, t, amount, AdminGrant), keep);
      found := true;
    }

    /** Registration: the fresh row, its starting balance and the ledger entry. */
    method SignUp(t: TenantId, key: string, starting: real, now: real, keep: int)
      modifies this`tenants, this`ledger
      ensures View() == SignedUp(old(View()), t, key, starting, now, keep)
    {
      tenants := tenants[t := Tenant(key, Active, starting, Some(now), now)];
      Record(LedgerEntry(now, t, starting, SignupGrant), keep);
    }
  }

  /** The meter's caller ends up holding the stored row, however stale its own copy was. */
  method DrainElapsed(store: TenantsStore, tenant: TenantHandle, interval: int, now: real, keep: int)
    returns (actual: real)
    modifies store`tenants, store`ledger, tenant`row
    ensures store.View() == Drained(old(store.View()), tenant.id, interval, now, keep)
    ensures tenant.row ==
            if tenant.id in store.tenants then store.tenants[tenant.id] else old(tenant.row)
    ensures actual == if tenant.id in old(store.tenants)
                      then ChargedAmount(old(store.tenants)[tenant.id], interval, now) else 0.0
  {
    var row;
    row, actual := store.Drain(tenant.id, interval, now, keep);
    if row.Some? {
      tenant.row := row.value;
    }
  }
}
