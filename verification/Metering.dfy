/** What metering promises over whole histories of drains, grants and signups. */
module Metering {
  import opened Wrappers
  import opened TenancyStore

  // ----- Drains compose -----

  function DrainAll(row: Tenant, interval: int, times: seq<real>): Tenant {
    if times == [] then row
    else ChargedRow(DrainAll(row, interval, times[..|times| - 1]), interval, times[|times| - 1])
  }

  /** Total debited by the drains at `times`, in order. */
  function PaidBy(row: Tenant, interval: int, times: seq<real>): real {
    if times == [] then 0.0
    else
      var before := DrainAll(row, interval, times[..|times| - 1]);
      PaidBy(row, interval, times[..|times| - 1]) + ChargedAmount(before, interval, times[|times| - 1])
  }

  function PeriodsDue(row: Tenant, interval: int, now: real): nat {
    if Billable(row, interval, now) then Periods(row, interval, now) else 0
  }

  /** Total periods billed by the drains at `times`, in order. */
  function BilledBy(row: Tenant, interval: int, times: seq<real>): nat {
    if times == [] then 0
    else
      var before := DrainAll(row, interval, times[..|times| - 1]);
      BilledBy(row, interval, times[..|times| - 1]) + PeriodsDue(before, interval, times[|times| - 1])
  }

  function Latest(times: seq<real>): (t: real)
    requires times != []
    ensures t in times && forall k :: 0 <= k < |times| ==> times[k] <= t
  {
    if |times| == 1 then times[0]
    else
      var rest := Latest(times[..|times| - 1]);
      var last := times[|times| - 1];
      assert forall k :: 0 <= k < |times| - 1 ==> times[k] == times[..|times| - 1][k];
      if rest < last then last else rest
  }

  /** Equal but for the time of the last write. */
  predicate SameBalance(a: Tenant, b: Tenant) {
    a.credits == b.credits && a.creditedS == b.creditedS && a.state == b.state && a.key == b.key
  }

  lemma QuotientShift(x: real, k: int, interval: int)
    requires interval > 0
    ensures (x - (k * interval) as real) / interval as real == x / interval as real - k as real
  {
    var i := interval as real;
    assert (k * interval) as real == k as real * i;
    assert (x / i - k as real) * i == x - k as real * i;
  }

  lemma QuotientMonotone(x: real, y: real, interval: int)
    requires interval > 0 && x <= y
    ensures x / interval as real <= y / interval as real
  {
    var i := interval as real;
    assert (y / i) * i == y && (x / i) * i == x;
    if y / i < x / i {
      assert (y / i) * i < (x / i) * i;
    }
  }

  /** After a charge the boundary has moved by whole periods, so later bills are what is left. */
  lemma PeriodsAfterCharge(row: Tenant, interval: int, a: real, b: real)
    requires Billable(row, interval, a)
    ensures Periods(ChargedRow(row, interval, a), interval, b)
            == Periods(row, interval, b) - Periods(row, interval, a)
  {
    QuotientShift(b - row.creditedS.value, Periods(row, interval, a), interval);
  }

  lemma PeriodsMonotone(row: Tenant, interval: int, a: real, b: real)
    requires interval > 0 && row.creditedS.Some? && a <= b
    ensures Periods(row, interval, a) <= Periods(row, interval, b)
  {
    QuotientMonotone(a - row.creditedS.value, b - row.creditedS.value, interval);
  }

  /** Two drains in either time order are one drain at the later time. */
  lemma DrainTwice(row: Tenant, interval: int, a: real, b: real)
    ensures var once := ChargedRow(row, interval, Max(a, b));
            var first := ChargedRow(row, interval, a);
            && SameBalance(ChargedRow(first, interval, b), once)
            && PeriodsDue(row, interval, a) + PeriodsDue(first, interval, b)
               == PeriodsDue(row, interval, Max(a, b))
            && ChargedAmount(row, interval, a) + ChargedAmount(first, interval, b)
               == ChargedAmount(row, interval, Max(a, b))
  {
    if row.state == Active && interval > 0 && row.creditedS.Some? {
      if a <= b {
        PeriodsMonotone(row, interval, a, b);
      } else {
        PeriodsMonotone(row, interval, b, a);
      }
      if Billable(row, interval, a) {
        PeriodsAfterCharge(row, interval, a, b);
        var pa, pb := Periods(row, interval, a), Periods(row, interval, b);
        assert ((pb - pa) * interval) as real + (pa * interval) as real == (pb * interval) as real;
      }
    }
  }

  lemma SameBalanceSameCharge(x: Tenant, y: Tenant, interval: int, now: real)
    requires SameBalance(x, y)
    ensures SameBalance(ChargedRow(x, interval, now), ChargedRow(y, interval, now))
    ensures PeriodsDue(x, interval, now) == PeriodsDue(y, interval, now)
    ensures ChargedAmount(x, interval, now) == ChargedAmount(y, interval, now)
  {
  }

  /** Any drains, at any times in any order, amount to one drain at the latest of the times. */
  lemma {:induction false} DrainsCompose(row: Tenant, interval: int, times: seq<real>)
    requires times != []
    ensures SameBalance(DrainAll(row, interval, times), ChargedRow(row, interval, Latest(times)))
    ensures BilledBy(row, interval, times) == PeriodsDue(row, interval, Latest(times))
    ensures PaidBy(row, interval, times) == ChargedAmount(row, interval, Latest(times))
  {
    var init, last := times[..|times| - 1], times[|times| - 1];
    if init == [] {
      assert DrainAll(row, interval, init) == row;
      assert PaidBy(row, interval, init) == 0.0 && BilledBy(row, interval, init) == 0;
    } else {
      DrainsCompose(row, interval, init);
      var once := ChargedRow(row, interval, Latest(init));
      SameBalanceSameCharge(DrainAll(row, interval, init), once, interval, last);
      DrainTwice(row, interval, Latest(init), last);
    }
  }

  lemma FractionOfInterval(rest: real, r: real, i: real)
    requires 0.0 <= r < 1.0 && i > 0.0 && rest / i == r
    ensures 0.0 <= rest < i
  {
    assert rest == r * i;
  }

  /** `x` less its whole intervals is under one interval. */
  lemma RemainderUnderInterval(x: real, p: int, interval: int)
    requires interval > 0 && p == (x / interval as real).Floor
    ensures 0.0 <= x - (p * interval) as real < interval as real
    ensures x >= 0.0 ==> p >= 0
  {
    QuotientShift(x, p, interval);
    FractionOfInterval(x - (p * interval) as real, x / interval as real - p as real, interval as real);
    if x >= 0.0 {
      QuotientMonotone(0.0, x, interval);
      assert 0.0 / interval as real == 0.0;
    }
  }

  /**
    One drain: the bill is whole periods, split into what was paid and the recorded
    shortfall; the balance does not go below zero (nor below itself when it starts
    below); the boundary advances by the billed periods and ends up under one
    interval behind the clock.
   */
  lemma DrainAccounts(row: Tenant, interval: int, now: real)
    requires row.state == Active && interval > 0 && row.creditedS.Some?
    ensures var after := ChargedRow(row, interval, now);
            var paid := row.credits - after.credits;
            var due := PeriodsDue(row, interval, now);
            && paid == ChargedAmount(row, interval, now)
            && 0.0 <= paid <= due as real
            && after.credits >= Min(0.0, row.credits)
            && (paid < due as real ==> after.credits <= 0.0)
            && after.creditedS == Some(row.creditedS.value + (due * interval) as real)
            && (row.creditedS.value <= now ==>
                  0.0 <= now - after.creditedS.value < interval as real)
  {
    var x := now - row.creditedS.value;
    var p := Periods(row, interval, now);
    RemainderUnderInterval(x, p, interval);
    if p <= 0 {
      assert PeriodsDue(row, interval, now) == 0;
      assert x >= 0.0 ==> p * interval == 0;
    } else {
      assert PeriodsDue(row, interval, now) == p;
    }
  }

  /** The ledger entry of a drain records the payment, and payment plus shortfall is the bill. */
  lemma DrainEntryAccounts(t: TenantId, row: Tenant, interval: int, now: real)
    requires Billable(row, interval, now)
    ensures var e := MeterEntry(t, row, interval, now);
            && e.delta == ChargedRow(row, interval, now).credits - row.credits
            && e.reason.Metered? && e.reason.shortfall >= 0.0
            && -e.delta + e.reason.shortfall == Periods(row, interval, now) as real
            && (e.reason.shortfall > 0.0 ==> ChargedRow(row, interval, now).credits <= 0.0)
  {
  }

  // ----- The pruned ledger -----

  predicate Ascending(rows: seq<LedgerRow>) {
    forall i, j :: 0 <= i < j < |rows| ==> rows[i].rowid < rows[j].rowid
  }

  /** `a` comes before `b` under ORDER BY at_s DESC, rowid DESC. */
  predicate Newer(a: LedgerRow, b: LedgerRow) {
    a.entry.atS > b.entry.atS || (a.entry.atS == b.entry.atS && a.rowid > b.rowid)
  }

  predicate Ordered(rows: seq<LedgerRow>) {
    forall i, j :: 0 <= i < j < |rows| ==> Newer(rows[i], rows[j])
  }

  function Entries(rows: seq<LedgerRow>): (es: seq<LedgerEntry>)
    ensures |es| == |rows| && forall k :: 0 <= k < |rows| ==> es[k] == rows[k].entry
  {
    seq(|rows|, k requires 0 <= k < |rows| => rows[k].entry)
  }

  /** A full history as rows, numbered by insertion order. */
  function Numbered(history: seq<LedgerEntry>): (rows: seq<LedgerRow>)
    ensures |rows| == |history| && Ascending(rows)
    ensures forall k :: 0 <= k < |rows| ==> rows[k] == LedgerRow(k, history[k])
  {
    seq(|history|, k requires 0 <= k < |history| => LedgerRow(k, history[k]))
  }

  lemma {:induction false} InsertMembers(row: LedgerRow, sorted: seq<LedgerRow>)
    ensures multiset(InsertNewest(row, sorted)) == multiset(sorted) + multiset{row}
    ensures forall r :: r in InsertNewest(row, sorted) <==> r == row || r in sorted
  {
    if !(sorted == [] || sorted[0].entry.atS <= row.entry.atS) {
      InsertMembers(row, sorted[1..]);
      assert sorted == [sorted[0]] + sorted[1..];
    }
  }

  lemma {:induction false} InsertOrdered(row: LedgerRow, sorted: seq<LedgerRow>)
    requires Ordered(sorted)
    requires forall k :: 0 <= k < |sorted| ==> sorted[k].rowid < row.rowid
    ensures Ordered(InsertNewest(row, sorted))
  {
    if sorted == [] || sorted[0].entry.atS <= row.entry.atS {
      forall j | 0 <= j < |sorted| ensures Newer(row, sorted[j]) {
        assert j > 0 ==> Newer(sorted[0], sorted[j]);
      }
    } else {
      var tail := sorted[1..];
      var rest := InsertNewest(row, tail);
      InsertOrdered(row, tail);
      InsertMembers(row, tail);
      forall j | 0 <= j < |rest| ensures Newer(sorted[0], rest[j]) {
        assert rest[j] in rest;
        if rest[j] != row {
          var k :| 0 <= k < |tail| && tail[k] == rest[j];
          assert Newer(sorted[0], sorted[k + 1]);
        }
      }
    }
  }

  function TenantRows(rows: seq<LedgerRow>, t: TenantId): multiset<LedgerRow> {
    if rows == [] then multiset{}
    else
      var rest := TenantRows(rows[..|rows| - 1], t);
      var last := rows[|rows| - 1];
      if last.entry.tenant == t then rest + multiset{last} else rest
  }

  /** `NewestFirst` is the query: exactly the tenant's rows, strictly in the query's order. */
  lemma {:induction false} NewestFirstIsTheQuery(rows: seq<LedgerRow>, t: TenantId)
    requires Ascending(rows)
    ensures Ordered(NewestFirst(rows, t))
    ensures multiset(NewestFirst(rows, t)) == TenantRows(rows, t)
    ensures forall r :: r in NewestFirst(rows, t) <==> r in rows && r.entry.tenant == t
  {
    if rows != [] {
      var init, last := rows[..|rows| - 1], rows[|rows| - 1];
      assert rows == init + [last];
      NewestFirstIsTheQuery(init, t);
      var rest := NewestFirst(init, t);
      forall k | 0 <= k < |rest| ensures rest[k].rowid < last.rowid {
        assert rest[k] in rest;
      }
      InsertOrdered(last, rest);
      InsertMembers(last, rest);
    }
  }

  /**
    With its LIMIT: the tenant's rows, newest first, as many as the limit admits, none of
    those left out newer than one returned. A negative limit admits all.
   */
  lemma QueryReturns(rows: seq<LedgerRow>, t: TenantId, limit: int)
    requires Ascending(rows)
    ensures var found := QueryRows(rows, t, limit);
            && Ordered(found) && multiset(found) <= TenantRows(rows, t)
            && |found| == (if 0 <= limit < |TenantRows(rows, t)| then limit else |TenantRows(rows, t)|)
            && forall r, s :: r in found && s in rows && s.entry.tenant == t && s !in found ==> Newer(r, s)
  {
    NewestFirstIsTheQuery(rows, t);
    var all, found := NewestFirst(rows, t), QueryRows(rows, t, limit);
    assert |all| == |multiset(all)|;
    var n := |found|;
    assert found == all[..n] && all == all[..n] + all[n..];
    hide Newer, NewestFirst;
    forall r, s | r in found && s in rows && s.entry.tenant == t && s !in found ensures Newer(r, s) {
      var i :| 0 <= i < n && found[i] == r;
      assert s in all[n..];
      var j :| n <= j < |all| && all[j] == s;
      assert all[i] == r;
    }
  }

  function FilterIds(rows: seq<LedgerRow>, kept: set<nat>): seq<LedgerRow> {
    if rows == [] then []
    else (if rows[0].rowid in kept then [rows[0]] else []) + FilterIds(rows[1..], kept)
  }

  predicate TimeSorted(rows: seq<LedgerRow>) {
    forall i, j :: 0 <= i < j < |rows| ==> rows[i].entry.atS >= rows[j].entry.atS
  }

  lemma {:induction false} FilterWithin(rows: seq<LedgerRow>, kept: set<nat>)
    ensures forall r :: r in FilterIds(rows, kept) ==> r in rows && r.rowid in kept
  {
    if rows != [] { FilterWithin(rows[1..], kept); }
  }

  /** Insertion commutes with dropping rows. */
  lemma {:induction false} FilterInsert(row: LedgerRow, sorted: seq<LedgerRow>, kept: set<nat>)
    requires TimeSorted(sorted)
    ensures FilterIds(InsertNewest(row, sorted), kept) ==
            if row.rowid in kept then InsertNewest(row, FilterIds(sorted, kept))
            else FilterIds(sorted, kept)
  {
    if sorted == [] || sorted[0].entry.atS <= row.entry.atS {
      var all := [row] + sorted;
      assert all[1..] == sorted;
      var left := FilterIds(sorted, kept);
      FilterWithin(sorted, kept);
      if left != [] {
        assert left[0] in sorted;
      }
    } else {
      FilterInsert(row, sorted[1..], kept);
      var all := [sorted[0]] + InsertNewest(row, sorted[1..]);
      assert all[1..] == InsertNewest(row, sorted[1..]);
      var rest := FilterIds(sorted[1..], kept);
      if sorted[0].rowid in kept {
        var left := [sorted[0]] + rest;
        assert left == FilterIds(sorted, kept) && left[1..] == rest;
        assert InsertNewest(row, left) == [sorted[0]] + InsertNewest(row, rest);
      }
      assert FilterIds(all, kept) ==
             (if sorted[0].rowid in kept then [sorted[0]] else []) + FilterIds(all[1..], kept);
      if sorted[0].rowid !in kept {
        assert FilterIds(sorted, kept) == rest;
      }
    }
  }

  lemma {:induction false} RetainKeepsOrder(rows: seq<LedgerRow>, t: TenantId, kept: set<nat>)
    requires Ascending(rows)
    ensures Ascending(Retain(rows, t, kept))
    ensures forall r :: r in Retain(rows, t, kept) ==> r in rows
  {
    if rows != [] {
      var init := rows[..|rows| - 1];
      assert rows == init + [rows[|rows| - 1]];
      RetainKeepsOrder(init, t, kept);
      var rest := Retain(init, t, kept);
      forall k | 0 <= k < |rest| ensures rest[k].rowid < rows[|rows| - 1].rowid {
        assert rest[k] in init;
      }
    }
  }

  /** Reading after the delete: the tenant's query filtered, every other tenant's unchanged. */
  lemma {:induction false} ReadAfterRetain(rows: seq<LedgerRow>, t: TenantId, kept: set<nat>, u: TenantId)
    requires Ascending(rows)
    ensures NewestFirst(Retain(rows, t, kept), u) ==
            if u == t then FilterIds(NewestFirst(rows, t), kept) else NewestFirst(rows, u)
  {
    if rows != [] {
      var init, last := rows[..|rows| - 1], rows[|rows| - 1];
      ReadAfterRetain(init, t, kept, u);
      var rest := Retain(init, t, kept);
      assert (rest + [last])[..|rest|] == rest;
      if last.entry.tenant == t && u == t {
        NewestFirstIsTheQuery(init, t);
        FilterInsert(last, NewestFirst(init, t), kept);
      }
    }
  }

  lemma {:induction false} FilterNone(rows: seq<LedgerRow>, kept: set<nat>)
    requires forall k :: 0 <= k < |rows| ==> rows[k].rowid !in kept
    ensures FilterIds(rows, kept) == []
  {
    if rows != [] { FilterNone(rows[1..], kept); }
  }

  lemma {:induction false} FilterPrefix(rows: seq<LedgerRow>, k: nat, kept: set<nat>)
    requires k <= |rows|
    requires forall i :: 0 <= i < k ==> rows[i].rowid in kept
    requires forall i :: k <= i < |rows| ==> rows[i].rowid !in kept
    ensures FilterIds(rows, kept) == rows[..k]
  {
    if k == 0 {
      FilterNone(rows, kept);
    } else {
      FilterPrefix(rows[1..], k - 1, kept);
      assert rows[..k] == [rows[0]] + rows[1..][..k - 1];
    }
  }

  /** Distinct rowids: the first k rows are told apart from the others by rowid. */
  lemma PrefixIds(rows: seq<LedgerRow>, sorted: seq<LedgerRow>, k: nat)
    requires Ascending(rows) && Ordered(sorted) && k <= |sorted|
    requires forall r :: r in sorted ==> r in rows
    ensures FilterIds(sorted, Rowids(sorted[..k])) == sorted[..k]
  {
    var kept := Rowids(sorted[..k]);
    forall i | 0 <= i < k ensures sorted[i].rowid in kept {
      assert sorted[..k][i].rowid in kept;
    }
    forall i, j | k <= i < |sorted| && 0 <= j < k ensures sorted[j].rowid != sorted[i].rowid {
      assert sorted[j] in rows && sorted[i] in rows && Newer(sorted[j], sorted[i]);
    }
    FilterPrefix(sorted, k, kept);
  }

  /** After pruning, the query returns exactly its first `keep` rows. */
  lemma ReadAfterPrune(rows: seq<LedgerRow>, t: TenantId, keep: int, u: TenantId)
    requires Ascending(rows)
    ensures Ascending(Pruned(rows, t, keep))
    ensures NewestFirst(Pruned(rows, t, keep), u) ==
            if u == t then Take(NewestFirst(rows, t), keep) else NewestFirst(rows, u)
  {
    var sorted := NewestFirst(rows, t);
    var k := |Take(sorted, keep)|;
    assert Take(sorted, keep) == sorted[..k];
    RetainKeepsOrder(rows, t, Rowids(sorted[..k]));
    ReadAfterRetain(rows, t, Rowids(sorted[..k]), u);
    NewestFirstIsTheQuery(rows, t);
    PrefixIds(rows, sorted, k);
  }

  function InsertEntry(e: LedgerEntry, sorted: seq<LedgerEntry>): seq<LedgerEntry> {
    if sorted == [] || sorted[0].atS <= e.atS then [e] + sorted
    else [sorted[0]] + InsertEntry(e, sorted[1..])
  }

  lemma {:induction false} EntriesOfInsert(row: LedgerRow, sorted: seq<LedgerRow>)
    ensures Entries(InsertNewest(row, sorted)) == InsertEntry(row.entry, Entries(sorted))
  {
    if sorted != [] && !(sorted[0].entry.atS <= row.entry.atS) {
      EntriesOfInsert(row, sorted[1..]);
      assert Entries(sorted)[1..] == Entries(sorted[1..]);
    }
  }

  /** Cutting to `keep` before an insertion loses nothing the cut after it would keep. */
  lemma {:induction false} CutThenInsert(e: LedgerEntry, sorted: seq<LedgerEntry>, keep: int)
    ensures Take(InsertEntry(e, Take(sorted, keep)), keep) == Take(InsertEntry(e, sorted), keep)
  {
    if 0 < keep < |sorted| && !(sorted[0].atS <= e.atS) {
      CutThenInsert(e, sorted[1..], keep - 1);
      var cut := Take(sorted, keep);
      assert cut[1..] == Take(sorted[1..], keep - 1);
      var x, y := InsertEntry(e, cut[1..]), InsertEntry(e, sorted[1..]);
      assert Take([sorted[0]] + x, keep) == [sorted[0]] + Take(x, keep - 1);
      assert Take([sorted[0]] + y, keep) == [sorted[0]] + Take(y, keep - 1);
    }
  }

  /** The tenant's full history, newest first with later insertions before earlier ties. */
  function NewestOfHistory(history: seq<LedgerEntry>, t: TenantId): seq<LedgerEntry> {
    Entries(NewestFirst(Numbered(history), t))
  }

  /** Every tenant's stored entries are the `keep` newest of its whole history. */
  ghost predicate LedgerMirrors(st: StoreState, history: seq<LedgerEntry>, keep: int) {
    && Ascending(st.ledger)
    && forall t: TenantId ::
         Entries(NewestFirst(st.ledger, t)) == Take(NewestOfHistory(history, t), keep)
  }

  lemma EntriesOfTake(rows: seq<LedgerRow>, keep: int)
    ensures Entries(Take(rows, keep)) == Take(Entries(rows), keep)
  {
  }

  /** Writing one entry and pruning keeps the mirror exact. */
  lemma RecordMirrors(st: StoreState, history: seq<LedgerEntry>, e: LedgerEntry, keep: int)
    requires LedgerMirrors(st, history, keep)
    ensures LedgerMirrors(Recorded(st, e, keep), history + [e], keep)
  {
    var rows := Appended(st.ledger, e);
    assert rows[..|rows| - 1] == st.ledger && Ascending(rows);
    ReadAfterPrune(rows, e.tenant, keep, e.tenant);
    hide Pruned, Appended, NewestFirst, NewestOfHistory, Take, Entries;
    forall t: TenantId
      ensures Entries(NewestFirst(Recorded(st, e, keep).ledger, t)) == Take(NewestOfHistory(history + [e], t), keep)
    {
      if t == e.tenant { WriterMirrors(st, history, e, keep); } else { OthersMirror(st, history, e, keep, t); }
    }
  }

  lemma WriterMirrors(st: StoreState, history: seq<LedgerEntry>, e: LedgerEntry, keep: int)
    requires LedgerMirrors(st, history, keep)
    ensures Entries(NewestFirst(Recorded(st, e, keep).ledger, e.tenant)) ==
            Take(NewestOfHistory(history + [e], e.tenant), keep)
  {
    hide Pruned, InsertNewest;
    var rows := Appended(st.ledger, e);
    assert rows[..|rows| - 1] == st.ledger && Ascending(rows);
    var numbered := Numbered(history + [e]);
    assert numbered[..|history|] == Numbered(history);
    ReadAfterPrune(rows, e.tenant, keep, e.tenant);
    var stored, whole := NewestFirst(st.ledger, e.tenant), NewestFirst(Numbered(history), e.tenant);
    EntriesOfInsert(rows[|rows| - 1], stored);
    EntriesOfInsert(numbered[|history|], whole);
    EntriesOfTake(NewestFirst(rows, e.tenant), keep);
    CutThenInsert(e, Entries(whole), keep);
  }

  lemma OthersMirror(st: StoreState, history: seq<LedgerEntry>, e: LedgerEntry, keep: int, t: TenantId)
    requires LedgerMirrors(st, history, keep) && t != e.tenant
    ensures Entries(NewestFirst(Recorded(st, e, keep).ledger, t)) == Take(NewestOfHistory(history + [e], t), keep)
  {
    hide Pruned, InsertNewest;
    var rows := Appended(st.ledger, e);
    assert rows[..|rows| - 1] == st.ledger && Ascending(rows);
    var numbered := Numbered(history + [e]);
    assert numbered[..|history|] == Numbered(history);
    ReadAfterPrune(rows, e.tenant, keep, t);
  }

  // ----- Whole histories -----

  datatype Event =
    | SignUp(tenant: TenantId, key: string, starting: real, now: real)
    | Grant(tenant: TenantId, amount: real, now: real)
    | Drain(tenant: TenantId, interval: int, now: real)
    | Disable(tenant: TenantId, now: real)
    | Rotate(tenant: TenantId, key: string, now: real)

  /** Signup ids are fresh; a signup under a known id does not happen. */
  function Apply(st: StoreState, ev: Event, keep: int): StoreState {
    match ev
    case SignUp(t, key, starting, now) =>
      if t in st.tenants then st else SignedUp(st, t, key, starting, now, keep)
    case Grant(t, amount, now) => Granted(st, t, amount, now, keep)
    case Drain(t, interval, now) => Drained(st, t, interval, now, keep)
    case Disable(t, now) => DisabledIn(st, t, now)
    case Rotate(t, key, now) => Rekeyed(st, t, key, now)
  }

  /** The ledger entries an event writes. */
  function Written(st: StoreState, ev: Event): seq<LedgerEntry> {
    match ev
    case SignUp(t, _, starting, now) =>
      if t in st.tenants then [] else [LedgerEntry(now, t, starting, SignupGrant)]
    case Grant(t, amount, now) =>
      if t in st.tenants then [LedgerEntry(now, t, amount, AdminGrant)] else []
    case Drain(t, interval, now) =>
      if t in st.tenants && Billable(st.tenants[t], interval, now)
      then [MeterEntry(t, st.tenants[t], interval, now)] else []
    case _ => []
  }

  const EMPTY_STORE := StoreState(map[], [], {}, map[])

  function After(events: seq<Event>, keep: int): StoreState {
    if events == [] then EMPTY_STORE
    else Apply(After(events[..|events| - 1], keep), events[|events| - 1], keep)
  }

  function History(events: seq<Event>, keep: int): seq<LedgerEntry> {
    if events == [] then []
    else
      var init := events[..|events| - 1];
      History(init, keep) + Written(After(init, keep), events[|events| - 1])
  }

  /** The sum of a tenant's deltas. */
  function Total(history: seq<LedgerEntry>, t: TenantId): real {
    if history == [] then 0.0
    else
      var last := history[|history| - 1];
      Total(history[..|history| - 1], t) + (if last.tenant == t then last.delta else 0.0)
  }

  ghost predicate Balanced(st: StoreState, history: seq<LedgerEntry>) {
    forall t: TenantId ::
      Total(history, t) == if t in st.tenants then st.tenants[t].credits else 0.0
  }

  lemma TotalAppend(history: seq<LedgerEntry>, e: LedgerEntry)
    ensures forall t: TenantId ::
              Total(history + [e], t) == Total(history, t) + (if e.tenant == t then e.delta else 0.0)
  {
    assert (history + [e])[..|history|] == history;
  }

  lemma EventKeeps(st: StoreState, ev: Event, history: seq<LedgerEntry>, keep: int)
    requires Balanced(st, history) && LedgerMirrors(st, history, keep)
    ensures Balanced(Apply(st, ev, keep), history + Written(st, ev))
    ensures LedgerMirrors(Apply(st, ev, keep), history + Written(st, ev), keep)
  {
    var written := Written(st, ev);
    if written == [] {
      assert history + written == history;
    } else {
      var e := written[0];
      TotalAppend(history, e);
      var moved := WithTenant(st, e.tenant, Apply(st, ev, keep).tenants[e.tenant]);
      assert LedgerMirrors(moved, history, keep);
      RecordMirrors(moved, history, e, keep);
    }
  }

  /**
    After any events: every balance is the sum of all deltas ever written for the tenant,
    and the stored ledger, pruned after every write, is the `keep` newest of that history.
   */
  lemma {:induction false} LedgerTheorem(events: seq<Event>, keep: int)
    ensures Balanced(After(events, keep), History(events, keep))
    ensures LedgerMirrors(After(events, keep), History(events, keep), keep)
  {
    if events != [] {
      var init := events[..|events| - 1];
      LedgerTheorem(init, keep);
      EventKeeps(After(init, keep), events[|events| - 1], History(init, keep), keep);
    }
  }

  /** After any events, what the ledger query shows with the same `keep` is the newest of the history. */
  lemma LedgerShows(events: seq<Event>, keep: int, t: TenantId)
    ensures Entries(QueryRows(After(events, keep).ledger, t, keep)) ==
            Take(NewestOfHistory(History(events, keep), t), keep)
  {
    hide After, History, NewestFirst, NewestOfHistory;
    LedgerTheorem(events, keep);
    EntriesOfTake(NewestFirst(After(events, keep).ledger, t), keep);
  }

  /** With non-negative starting balances and grants no balance is ever negative. */
  lemma {:induction false} NeverOverdrawn(events: seq<Event>, keep: int)
    requires forall k :: 0 <= k < |events| ==>
               && (events[k].SignUp? ==> events[k].starting >= 0.0)
               && (events[k].Grant? ==> events[k].amount >= 0.0)
    ensures forall t :: t in After(events, keep).tenants ==> After(events, keep).tenants[t].credits >= 0.0
  {
    hide Apply;
    if events != [] {
      NeverOverdrawn(events[..|events| - 1], keep);
      StaysSolvent(After(events[..|events| - 1], keep), events[|events| - 1], keep);
    }
  }

  lemma StaysSolvent(st: StoreState, ev: Event, keep: int)
    requires ev.SignUp? ==> ev.starting >= 0.0
    requires ev.Grant? ==> ev.amount >= 0.0
    requires forall t :: t in st.tenants ==> st.tenants[t].credits >= 0.0
    ensures forall t :: t in Apply(st, ev, keep).tenants ==> Apply(st, ev, keep).tenants[t].credits >= 0.0
  {
    hide ChargedRow, Pruned;
    if ev.Drain? && ev.tenant in st.tenants {
      ChargeIsPayable(st.tenants[ev.tenant], ev.interval, ev.now);
    }
  }

  lemma ChargeIsPayable(row: Tenant, interval: int, now: real)
    requires row.credits >= 0.0
    ensures ChargedRow(row, interval, now).credits >= 0.0
  {
    hide Periods;
  }
}
