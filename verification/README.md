# InfinityProxy, modelled and proved in Dafny

InfinityProxy leases rotating proxy tunnels to tenants. A control center (`tenancy/`) meters
credits and hands out leases; an engine (`engine/`) scrapes public proxy nodes, probes them, and
assigns them to tunnels it serves through containers. Both keep books that must stay exact while
requests race, replies get lost and processes die. This project models those books and proves what
they promise.

`dafny verify dfyconfig.toml` checks everything.

## The four parts

**The lease protocol.** `TenancyStore.dfy` is the control center's SQLite store as a class, each
method proved against a function on the four tables. `LeaseProtocol.dfy` is the step system: the
store, the engine's live tunnels and inbox, and any number of requests, each at a point of its
handler. Every choice of the environment is part of a step: a lost reply, a success without an id, a
4xx, a SQLite error that did or did not commit, the death of the process, an engine that acts on a
call after its caller gave up. `LeaseSafety.dfy` proves what holds in every run. `ControlCenter.dfy`
has the handlers as programs; before each call anybody else may take any steps, and every execution
is proved to be a run of the protocol. `Collections.dfy` and `Wrappers.dfy` hold what all parts share.

**Metering.** `Metering.dfy`: drains compose, balances are sums of deltas, and a ledger pruned
after every write is the newest part of its whole history.

**Assignment, health and redeploy.** `EngineStore.dfy` has the node and tunnel rows.
`HealthProtocol.dfy` is the step system of passes, creates, deletes and pool changes, a pass split
where the source drops its lock and a create split while its container starts. `HealthSafety.dfy`
proves the invariant, `HealthTheorems.dfy` the theorems, `HealthStray.dfy` when a failed update is
harmless, `HealthRevival.dfy` when a create that finishes after its delete is, `HealthLimits.dfy`
concrete runs past the limits. `EngineRuntime.dfy` has the
scheduler's and assigner's methods, `HealthPass.dfy` the pass and the tunnel handlers as programs,
every execution a run of the machine.

**Evidence, scoring and framing.** `Wilson.dfy` and `WilsonSql.dfy` (the bound over reals, and as
the SQL the store inlines), `Evidence.dfy` (windowed counters), `Scoring.dfy` (tiers, percentiles,
order), `Nonces.dfy` and `Framing.dfy` (the Shadowsocks AEAD stream), `SsUri.dfy` (one URI read
twice), `ProbeBudget.dfy` and `Refresh.dfy` (one source refresh).

## What is assumed

- Each store method is one atomic step; so is one engine exchange, and so is registration
  (`save_tenant` with `grant_starting`).
- Tunnel ids and reservation ids are never reused (the engine draws 24 random bits, the store a
  UUID). A 4xx answer to a create means nothing was created. A listing the engine answers is
  faithful, and 404 is answered only for a tunnel that is not there.
- In the lease protocol a tunnel is live once its create is over; until then it is a call under way,
  counted as such. Nobody in the control center knows its id yet, and a delete by anybody else that
  overtakes the create is undone by the row the create saves last.
- The engine's create and delete handlers take no lock. Reading the free nodes, assigning them and
  saving the row is one step of the model; so is all of a delete. Starting the container is not:
  anything may happen between the saved row and the handler's second save.
- A container counts as serving from the moment its create finishes; a create whose handler dies is one
  that never finishes.
- The unlocked reads of a pass (its snapshot, and the nodes a redeploy reads) are one step each.
- Nodes are never deleted, and a scrape or a probe moves no assignment (proved of the model's
  `UpsertCandidates` and `ApplyProbeResults`).
- Square roots, AEAD, HMAC, MD5, base64, percent decoding and integer parsing are parameters, with
  the laws used stated as preconditions. Credits, times and scores are exact reals.

## Where the promises stop

- A delete answered while a create is still starting its container: the create then saves its row
  back, with a grant and no nodes, and its container serves what may be another tunnel's. Even a row
  that claims no node does harm when a pass of it is in flight that the busy flag does not know of:
  two passes then run at once. `FinishHarmlessIff` says exactly when a finishing create is harmless
  for every run to come, and the run theorems exclude exactly the others.
- An update that errors after its new container started, and whose best-effort clean-up fails too,
  leaves that container serving while the pass records a failure. The tunnel can later settle on its
  old config without touching it. `FailedUpdateHarmlessIff` says exactly when this is harmless, by a
  test on the two configs; the run theorems exclude only the harmful case.
- A delete answered while an update is under way leaves a container without a row, which may share
  a node with another tunnel: `RollOutWithinIff`.
- `speed_percentile_map` documents that the slowest member ranks zero. It does not when others tie
  with it: `SlowestIsZeroIff`.
- `_wilson_sql` documents that it mirrors the Python formula exactly. On an empty sample it is NULL,
  not zero; `QueryMeetsLabel` says exactly when that shows in the tier counts.
- The probe and the renderer agree on every URI the probe certifies, but the renderer accepts some
  the probe does not: `RenderedIsCertifiedIff`.

## Model

| member | source | states |
|---|---|---|
| `LeaseSafety.NeverOverCap` | tenancy/app.py:267-337 | In every state the lease protocol can reach, whatever replies are lost or malformed, whatever SQLite calls raise and whoever dies, the live tunnels provisioned for a tenant, and even those with the tunnels still under construction, are at most its links plus reservations, and those at most the cap. |
| `LeaseSafety.ClaimsInject` | tenancy/store.py:235-294 | Live tunnels of a tenant, and create calls the engine may still act on, map one-to-one into the tenant's link and reservation rows. |
| `LeaseSafety.ClaimsWithinCap` | tenancy/store.py:235-259 | Counting version: live tunnels, then live tunnels plus calls still under way, then rows, then the cap, each at most the next. |
| `LeaseSafety.RunKeeps` | tenancy/app.py:145-159 | The protocol invariant (every live tunnel covered by a link or reservation, the cap, one slot per tunnel, what each request in flight relies on) survives every sequence of steps. |
| `LeaseProtocol.StepKeeps` | tenancy/app.py:145-159 | Any one step of any request or of the environment keeps that invariant. |
| `LeaseProtocol.ListedOk` | tenancy/app.py:145-158 | The scope is read before the engine is listed, so whatever the listing lacks of it was issued and is gone: every id the request is about to unlink is gone from the engine. |
| `LeaseProtocol.RequestFramed` | tenancy/app.py:145-159 | What one request relies on, the tombstones it holds included, survives any step of anybody else, as long as that step is not by the holder of its reservation. |
| `LeaseSafety.UnlinkedIsGone` | tenancy/app.py:157-158 | A step that removes a link, whichever handler takes it, removes the link of a tunnel that is not live in any later state. |
| `LeaseSafety.GoneForever` | tenancy/store.py:305-311 | A tunnel whose create is over, once removed, is never live again. |
| `LeaseSafety.UnlinkedStays` | tenancy/store.py:261-311 | A lease that any step took away is never stored again: the only reservation it could come out of is used up. |
| `LeaseSafety.StrandedStays` | tenancy/app.py:296-306 | A reservation kept because the outcome of its create is unknown counts against the cap in every later state. |
| `LeaseSafety.DisabledNeverGrows` | tenancy/store.py:420-426 | After a disable the tenant stays barred and its links plus reservations never grow, in any run. |
| `LeaseSafety.SweepShrinks` | tenancy/app.py:461-468 | A disable's delete of a linked tunnel answered by success or 404 is followed by an unlink that is always possible and leaves the tunnel gone; whatever everybody else does in between, the two together strictly shrink the slots of a barred tenant (and of any tenant when nobody does anything). |
| `LeaseSafety.QuietRun` | tenancy/app.py:449-474 | From a barred tenant without reservations, no run adds a live tunnel or a link, and every disable loop accounts for what is left. |
| `LeaseSafety.DisableEmpties` | tenancy/app.py:449-474 | A disable call that ends with nothing pending, started with nothing in flight and no reservation stranded, leaves no live tunnel and no link, now and in every later state. |
| `LeaseSafety.NoFailureNoPending` | tenancy/app.py:463-467 | Only a delete answered by neither success nor 404 can make a disable report an id as pending. |
| `LeaseSafety.CleanDisableEmpties` | tenancy/app.py:449-474 | With nothing in flight and no reservation stranded, a disable call all of whose deletes answer success or 404 ends with the tenant owning nothing and having no live tunnel. |
| `TenancyStore.TenantsStore.ReserveTunnel` | tenancy/store.py:235-259 | One guarded insert: a slot exactly when the tenant is active, can pay and is below the cap; else nothing changes. |
| `TenancyStore.TenantsStore.NoteReservationTunnel` | tenancy/store.py:261-266 | The reservation, if any, learns its tunnel; all else unchanged. |
| `TenancyStore.TenantsStore.ReleaseReservation` | tenancy/store.py:268-273 | The reservation is gone; all else unchanged. |
| `TenancyStore.TenantsStore.CompleteReservation` | tenancy/store.py:275-294 | One transaction turns the reservation into ownership even for a tenant disabled meanwhile, answers whether it is owned and active, and is undone by a duplicate link. |
| `TenancyStore.TenantsStore.UnlinkTunnel` | tenancy/store.py:305-311 | That link is gone; all else unchanged. |
| `TenancyStore.TenantsStore.GetTunnelsOf` | tenancy/store.py:313-319 | Exactly the tunnels linked to the tenant. |
| `TenancyStore.TenantsStore.Disable` | tenancy/store.py:420-426 | The tenant is disabled and stamped; no other row changes. |
| `TenancyStore.TenantsStore.SetKey` | tenancy/store.py:412-418 | The tenant's key changes, with its stamp; no other row does. |
| `ControlCenter.Center.TunnelsForTenant` | tenancy/app.py:145-159 | Everybody else running in between: the leases answered are what the store held at one point of the call and the engine at a later one; what the engine lacked is gone from it and unlinked, for good. |
| `ControlCenter.Center.UnlinkTombstones` | tenancy/app.py:157-158 | One by one, each a step of the protocol: unless SQLite raises, which ends the request, none of these ids is live or linked to the tenant afterwards, nor can be again. |
| `ControlCenter.Center.CreateTenantTunnel` | tenancy/app.py:267-337 | Whatever happens in between: an uncertain outcome leaves the reservation stranded, a settled one leaves none, and a tunnel made is, while live, linked or reserved for. |
| `ControlCenter.Center.ReserveSlot` | tenancy/app.py:267-295 | Reads the leases, then reserves; no reservation exactly for an unread listing, a refusal or a raised call. |
| `ControlCenter.Center.Provision` | tenancy/app.py:296-337 | Sends the create and acts on its reply: lost and malformed replies strand the slot, a 4xx releases it. |
| `ControlCenter.Center.FinalizeLease` | tenancy/app.py:306-334 | Notes and completes the reservation; a raised call compensates, a disabled tenant is cleaned up. |
| `ControlCenter.Center.CleanUp` | tenancy/app.py:312-318 | For a tenant disabled during provisioning: once the engine answers success the tunnel is gone, and its lease too unless SQLite raises; only that sends the handler on to compensate. |
| `ControlCenter.Center.Compensate` | tenancy/app.py:324-334 | After a failed finalization the slot is released exactly when the delete answered success or 404, and then the tunnel is gone. |
| `ControlCenter.Center.Release` | tenancy/app.py:335-337 | The finally part: the reservation is gone unless SQLite raises. |
| `ControlCenter.Center.DeleteTenantTunnel` | tenancy/app.py:339-355 | A delete answered 204 leaves the tunnel gone and unlinked. |
| `ControlCenter.Center.AdminDisable` | tenancy/app.py:449-474 | Once answered the tenant is barred, and whatever it owned when its leases were read is gone from the engine or reported pending; if it had no reservation left when it was barred, its live tunnels and links are all among the ids reported pending. |
| `ControlCenter.Center.Sweep` | tenancy/app.py:460-474 | The deletion loop: what it has not dealt with and what it reports as pending cover everything the tenant still has. |
| `ControlCenter.Center.SweepOne` | tenancy/app.py:461-468 | One id: kept pending, or gone from the engine and unlinked; what earlier turns settled stays so. |
| `TenancyStore.TenantsStore.Drain` | tenancy/store.py:347-388 | Balance, boundary and ledger entry move together, by whole periods, or not at all. |
| `TenancyStore.TenantsStore.Grant` | tenancy/store.py:390-410 | Balance and ledger entry move together; an unknown tenant changes nothing. |
| `TenancyStore.TenantsStore.SignUp` | tenancy/billing.py:31-51 | A fresh tenant's row, starting balance and ledger entry. |
| `TenancyStore.TenantsStore.PruneLedger` | tenancy/store.py:217-223 | Row by row, what the DELETE with its subquery leaves. |
| `TenancyStore.TenantsStore.Record` | tenancy/billing.py:43-51 | One entry appended, then the tenant's rows pruned. |
| `TenancyStore.DrainElapsed` | tenancy/billing.py:11-28 | The caller's copy of the tenant becomes the stored row, however stale it was. |
| `Metering.DrainTwice` | tenancy/store.py:365-377 | Two drains in either time order charge, bill and move the boundary like one at the later time. |
| `Metering.DrainsCompose` | tenancy/store.py:347-388 | Any drains with no grant between them, at arbitrary and even non-monotone times, equal one drain at the largest time: same balance, same boundary, same bill, same payment. |
| `Metering.DrainAccounts` | tenancy/store.py:365-377 | Paid is at most due, due is whole periods, the balance does not go below zero, and after a drain not in the past the lag is under one interval. |
| `Metering.DrainEntryAccounts` | tenancy/store.py:370-383 | The ledger entry holds what was paid, and paid plus shortfall is the bill. |
| `Metering.RemainderUnderInterval` | tenancy/store.py:365-373 | The floor division leaves a remainder of at least zero and under one interval. |
| `TenancyStore.TenantsStore.Ledger` | tenancy/store.py:199-215 | The entries of the ledger query, LIMIT included, in its order. |
| `Metering.NewestFirstIsTheQuery` | tenancy/store.py:202-204 | Before its LIMIT the query returns exactly the tenant's rows, newest first with later insertions before earlier ties. |
| `Metering.QueryReturns` | tenancy/store.py:199-207 | With its LIMIT (none when negative): as many of the tenant's rows as it admits, newest first, none left out newer than one returned. |
| `Metering.ReadAfterPrune` | tenancy/store.py:217-228 | Pruning leaves the query's first `keep` rows and every other tenant's rows. |
| `Metering.RecordMirrors` | tenancy/store.py:379-384 | Writing an entry and pruning keeps the stored ledger equal to the newest `keep` of the whole history. |
| `Metering.LedgerTheorem` | tenancy/store.py:374-410 | After any starting grants, grants, drains, disables and key changes, every balance is the sum of all deltas ever written, and every stored ledger is the newest `keep` of its full history. |
| `Metering.LedgerShows` | tenancy/store.py:199-228 | After any such events, the query with the same `keep` shows the newest entries of the tenant's full history. |
| `Metering.NeverOverdrawn` | tenancy/store.py:367-377 | With non-negative grants no balance is ever negative. |
| `EngineStore.Store.AssignNodes` | engine/db.py:639-647 | Every listed node moves to the tunnel, no other row changes. |
| `EngineStore.Store.ReleaseTunnel` | engine/db.py:649-656 | Every node of the tunnel is freed, counted, and no other row changes. |
| `EngineRuntime.Engine.BumpGranted` | engine/scheduler.py:285-291 | The stored count moves by the delta, floored at zero, and the tunnel runs. |
| `EngineRuntime.Engine.ApplyHealthVerdicts` | engine/scheduler.py:241-260 | The loop over the snapshot does what judging it in order does, and counts the swaps. |
| `EngineRuntime.Engine.JudgeNode` | engine/scheduler.py:247-259 | One verdict: forgiven, struck, or swapped out. |
| `EngineRuntime.Engine.AfterProvision` | engine/scheduler.py:224-239 | A degraded tunnel gets the front of a best-first ranking of the free nodes, up to its request, each counted. |
| `EngineRuntime.Engine.TopUp` | engine/assigner.py:125-142 | As many free nodes from the front as there is room, assigned; no free node left out is preferred to one added. |
| `EngineRuntime.AssignNew` | engine/assigner.py:110-123 | The first `requested` free nodes of a best-first ranking, assigned: no free node left out has a better tier, or in the same tier a better score (by speed, with stability off), than one granted. |
| `EngineRuntime.FreeNodes` | engine/assigner.py:88-108 | Exactly the alive, dialable, unassigned nodes, each once, in the order of the settings, scored (the clock read once for the readings and once per node for its tier) or by speed; nodes that tie in the order they were loaded in, by latency with NULL first. |
| `EngineRuntime.Engine.Commit` | engine/scheduler.py:207-218 | The locked section of a pass: nothing for a tunnel that is not serving; else verdicts, top-up and the pending mark as one state change, and the two counts it answers. |
| `EngineRuntime.Engine.PlanRedeploy` | engine/scheduler.py:293-313 | What would be served is the alive, dialable assigned set; an unchanged config settles the tunnel. |
| `EngineRuntime.Engine.FinishRedeploy` | engine/scheduler.py:317-324 | Only a successful update is recorded and settles the tunnel. |
| `EngineRuntime.Engine.ForgetTunnel` | engine/scheduler.py:82-97 | Every strike of the tunnel, its mark and its rendered config are gone; nobody else's. |
| `EngineRuntime.Engine.DropTunnel` | engine/assigner.py:144-155 | Nodes freed and the row deleted: the delete's and the rollback's common part. |
| `EngineRuntime.Engine.DeleteTunnel` | engine/app.py:319-333 | 404 without a row; else nodes, row and bookkeeping go together. |
| `EngineRuntime.Engine.BeginCreate` | engine/assigner.py:157-180 | Nodes granted and a starting row saved with their number. |
| `EngineRuntime.Engine.FinishCreate` | engine/app.py:285-290 | The handler's own copy of the row is saved as running, whatever the store holds by then. |
| `EngineRuntime.Engine.Reconcile` | engine/scheduler.py:99-122 | After boot every assignment points at an existing tunnel row; other assignments stay, and every tunnel not stopped is running. |
| `HealthPass.Worker.HealthCheck` | engine/scheduler.py:153-171 | A whole health pass, anybody running in between, is a run of the machine; the two counts it answers are the swaps and top-ups of its commit, zero without one; it raises only for raising probes, rendering or updates; a pass already in flight makes it a no-op. |
| `HealthPass.Worker.RunHealthPass` | engine/scheduler.py:173-222 | Snapshot, probes, locked commit, redeploy and self-heal follow the machine's steps in order, an exception of the probes, of rendering or of an update ending the pass wherever it strikes; its counts are those of its commit. |
| `HealthPass.Worker.Redeploy` | engine/scheduler.py:293-324 | Read, render, update with no lock held, record: each a step of the machine, a rendering that raises and an update that fails or raises included; a new container counts as rolled only when the update answered so. |
| `HealthPass.Worker.RollOutPlan` | engine/scheduler.py:314-324 | What the update leaves: the container that was read on success; on failure the old one, none, or the new one that its clean-up could not remove. |
| `HealthPass.Worker.SelfHeal` | engine/scheduler.py:262-283 | Heals only a row that is not stopped and whose container is not running or cannot be inspected, and only by an update that succeeds; never when the runtime is unreachable. |
| `HealthPass.Worker.CreateTunnel` | engine/app.py:253-291 | The create handler, anybody running while the container starts, is a run of the machine; a failed start leaves neither row nor nodes. |
| `HealthPass.Worker.DeleteTunnel` | engine/app.py:319-333 | The delete handler is a step of the machine and leaves no row, node or mark of the tunnel. |
| `HealthSafety.JudgedExactly` | engine/scheduler.py:241-260 | Judging a snapshot that is still assigned: each verdict counts once against the strikes at the start, exactly the nodes reaching the limit are freed, and the count falls by their number with the floor at zero never biting. |
| `HealthSafety.StepKeeps` | engine/scheduler.py:153-324 | Every step of every pass, create, delete and pool change keeps the assignment, strike and deploy invariants, failed updates and harmless revivals of a deleted row included, but for two: a harmful revival, and a failed update that leaves a container serving more than the last rendered config. |
| `HealthSafety.RunKeeps` | engine/scheduler.py:153-324 | So do all runs without those two steps. |
| `HealthSafety.CommittedKeeps` | engine/scheduler.py:207-218 | The locked section keeps counts exact and strikes equal to dead runs, and an unmarked tunnel keeps its nodes. |
| `HealthTheorems.CountsExact` | engine/scheduler.py:285-291 | In every such reachable state the stored grant count is the number of nodes assigned and at most the request. |
| `HealthTheorems.SnapshotStillAssigned` | engine/scheduler.py:183-209 | Whenever the tunnel's row still exists, every node of a pass's unlocked snapshot is still assigned to it. |
| `HealthTheorems.CommitSwapsExactly` | engine/scheduler.py:241-260 | At the commit a snapshot node loses its tunnel exactly when its trailing run of dead verdicts reaches the limit (at least one); other tunnels lose none; the count falls by exactly the nodes lost. |
| `HealthTheorems.StrikesAreDeadRuns` | engine/scheduler.py:247-256 | A stored strike count is the trailing run of dead verdicts of a pair since its assignment, between one and the limit, and only of assigned pairs. |
| `HealthTheorems.ServedWithin` | engine/scheduler.py:293-324 | The container of a tunnel with a row and no redeploy pending serves only nodes assigned to it, in every run without those two steps. |
| `HealthTheorems.ServedApart` | engine/scheduler.py:293-324 | So no two such tunnels share a node. |
| `HealthStray.FailedUpdateHarmlessIff` | engine/tunnel/container.py:148-172 | A failed update whose new container stays up is harmless (no later run makes the tunnel share a node while it and the other tunnel await no redeploy) if and only if what was rolled out is within the last rendered config. |
| `HealthStray.StrayShares` | engine/scheduler.py:293-324 | From any such stray container there is a run to two settled tunnels sharing the stray node: it dies, the tunnel settles on its old config, and another tunnel is granted it. |
| `HealthLimits.FailedUpdateShares` | engine/tunnel/container.py:148-172 | A reachable state, a failed update there and a run after it in which two settled tunnels share a node. |
| `HealthTheorems.PendingUntilSettled` | engine/scheduler.py:216-220 | A tunnel marked for redeploy stays marked, failed updates included, in every run that neither rolls it out, finds its config unchanged nor deletes it. |
| `HealthTheorems.RollOutServesWhatWasRead` | engine/scheduler.py:298-323 | A successful update serves exactly the alive, dialable assigned set its pass last read, settles the tunnel, and is within its assigned nodes still. |
| `HealthTheorems.RollingWasRead` | engine/scheduler.py:298-318 | A config on its way out is what the pass's latest deploy read found, at some earlier step of the run. |
| `HealthRevival.FinishHarmlessIff` | engine/app.py:253-291 | A create that finishes is harmless (in every later run the counts stay exact and the tunnel shares no node with another while neither awaits a redeploy) if and only if its row is still there, or it was granted no node and at most one pass of it is in flight, known to the busy flag. Harmless, it keeps the whole invariant in every later run. |
| `HealthRevival.LooseShares` | engine/scheduler.py:153-171 | From any revived row with a pass the busy flag does not know of there is a run in which that tunnel serves a node that another tunnel serves too: a config read by a second pass is rolled out after its node died and was swapped out. |
| `HealthRevival.FinishMiscounts` | engine/scheduler.py:168-171 | Where one missed probe swaps a node out, every harmful finish has a later state with a wrong grant count: two passes at once each count the same dead node. |
| `HealthTheorems.FinishExactIff` | engine/app.py:285-290 | Right after a create finishes the counts are exact if and only if its row was still there or it was granted no node. |
| `HealthLimits.DeleteDuringCreateRevives` | engine/app.py:253-333 | A run in which a deleted tunnel's row comes back with a grant of one node and none assigned. |
| `HealthLimits.DeleteDuringCreateShares` | engine/app.py:253-333 | A run in which a create finishes after its delete and serves the node since granted to a second tunnel. |
| `HealthLimits.EmptyCreateRevives` | engine/app.py:253-333 | A create granted nothing, deleted under a pass in flight: its finish leaves exact counts, one run from there a wrong count, another two tunnels sharing a node. |
| `HealthTheorems.RollOutWithinIff` | engine/scheduler.py:317-323 | A successful update leaves its container within the assigned nodes if and only if the row still exists or nothing is served. |
| `HealthLimits.DeleteDuringRollOutShares` | engine/scheduler.py:317-323 | A run in which a delete overtakes an update: the container left behind serves a node another tunnel serves too. |
| `Wilson.Threshold` | engine/stability.py:24-37 | For every sample and every floor below one: the bound reaches the floor exactly when the share does and n(p-a)^2 >= z^2 a(1-a). |
| `Wilson.SmallerRoot` | engine/stability.py:24-37 | The bound is the smaller root of (p-w)^2 = z^2 w(1-w)/n, between zero and the share, and below one. |
| `Wilson.Unneeded` | engine/stability.py:37 | Over exact reals the clamp at zero never acts. |
| `Wilson.MonotoneInSuccesses` | engine/stability.py:24-42 | At a fixed sample size more successes never lower the bound. |
| `Wilson.MonotoneInSize` | engine/stability.py:24-42 | At the same share a larger sample never has a lower bound. |
| `Wilson.MonotoneInScale` | engine/stability.py:24-42 | Scaling both counts by the same factor never lowers the bound. |
| `Wilson.PerfectRecord` | engine/stability.py:24-42 | A perfect record of n probes has the bound n/(n+z^2). |
| `Wilson.NoSuccess` | engine/stability.py:24-42 | A record without a success has the bound zero. |
| `WilsonSql.SqlIsPython` | engine/db.py:13-29 | Under SQLite's integer, real and NULL rules the inlined expression evaluates to the Python bound on every sample of at least one probe. |
| `WilsonSql.SqlWithoutProbes` | engine/db.py:13-29 | Without a probe SQL answers NULL where Python answers zero. |
| `Scoring.QueryMeetsLabel` | engine/db.py:546-575 | For one alive row the Tier A query agrees with `tier` except exactly when a node never probed is fresh enough and judged by min_probes <= 0 and a floor <= 0. |
| `Scoring.PoolCountsAreLabels` | engine/db.py:546-575 | With min_probes >= 1, `pool_counts` counts exactly the alive nodes that `tier` labels A and B at that instant. |
| `Scoring.BisectRight` | engine/stability.py:96 | On a sorted list, how many elements are at most x. |
| `Scoring.SpeedPercentileMap` | engine/stability.py:55-98 | An entry, the percentile within its protocol, for every measured node that is not too old to rank, and for no other. |
| `Scoring.Percentiles` | engine/stability.py:93-97 | Percentiles lie in [0,1], rise with throughput, and are one exactly for the fastest readings, ties included. |
| `Scoring.SpeedMapPromises` | engine/stability.py:61-69 | The same of the map's entries, node by node within a protocol. |
| `Scoring.SlowestIsZeroIff` | engine/stability.py:63-64 | The documented zero for the slowest holds if and only if it is alone at its speed and not alone in its protocol. |
| `Scoring.TiedSlowest` | engine/stability.py:63-64 | Two tied slowest of three rank one half. |
| `Scoring.SortedStably` | engine/stability.py:176 | The same candidates in key order, equal keys as they came. |
| `Scoring.GreedyOptimum` | engine/stability.py:144-176 | Tier A before Tier B before cold; however many are granted from the front, nobody left out beats anybody granted. |
| `Evidence.ApplyProbeResults` | engine/db.py:401-503 | The loop that folds each row's counters and writes it back does to the rows what judging them one by one does. |
| `Evidence.UpsertCandidates` | engine/db.py:274-339 | New rows inserted in order, then known rows rescraped in order, a new URI or protocol voiding every verdict but not the assignment. A new id named twice raises, with the rows before it inserted and no known row touched; a batch that names none twice inserts or rescrapes exactly its rows. |
| `Evidence.DistinctUpserted` | engine/db.py:274-339 | For a batch that names no id twice, row by row: inserted, or rescraped once, or untouched. |
| `Evidence.CountersRefine` | engine/db.py:428-440 | Whatever happened to a row, its counters are the halving fold, window by window, of only the stability verdicts its present endpoint received. |
| `Evidence.CountersInRange` | engine/db.py:428-440 | 0 <= probe_ok <= probe_total, and at least one probe once a verdict counted. |
| `Evidence.ScoreIsBound` | engine/db.py:449-462 | The cached score is NULL until a verdict counts and then always the Wilson bound of the present counters. |
| `Evidence.ProbeTotalBounded` | engine/db.py:431-440 | If no window ever holds more than R verdicts, probe_total stays below 2R for ever. |
| `Evidence.StoredEvidence` | engine/db.py:274-339 | In every store reached by scrapes, probes and assignments: counters in range, and a score that is the bound of the counters it stands on. |
| `Evidence.JudgingLives` | engine/db.py:401-503 | Applying a batch of verdicts keeps the store among those. |
| `Evidence.ScrapingLives` | engine/db.py:274-339 | So does a scrape, one that raises half way included; it moves no assignment either. |
| `Evidence.AssigningLives` | engine/db.py:639-656 | Assigning, unassigning and releasing keep the store among those. |
| `Evidence.JudgingAssignsNothing` | engine/db.py:401-503 | Verdicts move no assignment. |
| `Evidence.JudgedOnce` | engine/db.py:410-502 | In one call each row with a verdict is judged once, by its own, and no other row changes. |
| `Nonces.IncNonce` | engine/filter/probe.py:542-546 | In place, the carry loop is the little-endian increment of the whole buffer. |
| `Nonces.IncIsPlusOne` | engine/filter/probe.py:542-546 | That increment is plus one modulo 256 to the buffer's length. |
| `Nonces.NoncesDistinct` | engine/filter/probe.py:542-546 | No nonce of one direction repeats before 256 to the size operations. |
| `Nonces.Subkey` | engine/filter/probe.py:527-539 | Exactly `length` bytes of the expand step of section 2.3 of RFC 5869 with the info "ss-subkey"; an error exactly above 255 blocks. |
| `Nonces.MasterKey` | engine/filter/probe.py:514-524 | Exactly `length` bytes of the chain of MD5 blocks. |
| `Nonces.CutPrefixStable` | engine/filter/probe.py:527-539 | Asking for a longer key does not change the first bytes. |
| `Framing.FrameRequest` | engine/filter/probe.py:573-580 | What the probe sends is its salt and one framed chunk. |
| `Framing.ParseFramed` | engine/filter/probe.py:558-703 | Parsing what was framed gives back the chunks, in order, under the same nonces. |
| `Framing.RecvN` | engine/filter/probe.py:686-703 | Exactly n bytes, or all there are before the close, however they arrive; or a timeout or a reset. |
| `Framing.ReadChunk` | engine/filter/probe.py:592-608 | Whatever the portions, one read hears exactly the stream's next chunk or why there is none, and steps the nonce twice for a chunk. |
| `Framing.ReadBody` | engine/filter/probe.py:643-683 | The bodies counted are the stream's chunks in order; it stops early only for a full sample, the clock or a timeout before a chunk; a timeout inside one and a reset connection escape it; whenever it returns short of a broken chunk the counter is at twice the chunks. |
| `Framing.ReadRelay` | engine/filter/probe.py:582-640 | Salt, judge chunk and body on one counter: the echo and HTTP verdicts are of the stream's first chunk, what is counted are the following ones, no more than the sample needs, and a failure that escapes the body ends the whole attempt. |
| `Framing.RelayRoundTrip` | engine/filter/probe.py:558-703 | Of any sendable chunks framed behind a salt, however the bytes arrive and wherever it stops, the reader hears the first ones in order, all of them if it reads to the end, and refuses the peer for want of a chunk only if none was sent. |
| `SsUri.CertifiedRendersAlike` | engine/tunnel/config.py:385-429 | Every Shadowsocks URI the probe certifies is rendered with the probe's exact method and password and no plugin, or fails on host and port only. |
| `SsUri.RenderedIsCertifiedIff` | engine/filter/probe.py:162-184 | A rendered URI with an AEAD method is certified if and only if its password is not empty and its decoded query is not a plugin. |
| `SsUri.SameLogin` | engine/filter/probe.py:485-511 | Over all three URI shapes both sides find the same method and password, and the renderer whenever the probe does. |
| `ProbeBudget.SelectUntested` | engine/pool.py:159-170 | At most the budget, as many as there are, and no one taken is behind an untested node left out, by tier, then by age, then by id. |
| `ProbeBudget.LoadOldest` | engine/db.py:383-389 | The oldest matching rows up to the limit, by first-seen time and then id; no limit when it is negative. |
| `Refresh.AdmitBatch` | engine/pool.py:81-122 | The batch is rewritten row by row as the gate says, then applied. |
| `Refresh.BatchProbe` | engine/filter/runner.py:13-51 | Every node gets exactly one verdict, gated and applied at its chunk's callback; every other row is as it was. |
| `Refresh.ProbeNew` | engine/pool.py:81-191 | One refresh: the tiered slice and the oldest dead ones, each judged once; whoever is alive after it answered, renders and met the throughput floor; the untested nodes shrink by exactly the budget or run out. |
| `Refresh.RefreshUntilTested` | engine/pool.py:150-191 | Refresh after refresh, of whatever sources and whatever the probes answer: the loop ends with no untested node in the store, after exactly ceil(u / budget) refreshes for u untested at the start. |

## Left out

- HTTP routing, JSON bodies, authentication headers, TLS, Docker, real sockets, clocks and threads: replaced by nondeterministic replies, an explicit time and interleaved steps. A request enters the lease protocol already authenticated and metered.
- The panel, demo, host agent, tools and JavaScript; port allocation, credentials, source manifests, feed fetching and parsing, schema migration and status shaping.
- The vmess, tuic, hysteria2, trojan, vless, http and socks renderers and their probes.
- `spend`, `link_tunnel`, `drop_tenant_tunnels` and `delete_tenant`: the app never calls them, and some would break the ledger or the ownership invariants.
- ControlCenter.Center.CreateTenantTunnel: the early 402 on the authenticated copy of the tenant, which ends the request before it touches a lease; the reservation repeats the check.
- The renew endpoint: it is a health pass and changes no lease.
- Crash recovery of the engine's grant counts and in-memory bookkeeping; for boot only the assignments are claimed.
- Fairness of the dead-node retest: the comment in the source says it rotates, but the query orders by first-seen time, which a new dead verdict does not change.
- "Alive implies renderable" as a global invariant: the health loop applies verdicts without the render gate, so it is claimed of a refresh only.
- A non-finite grant (a ValueError in the source): amounts are exact reals.
- The 24-hour event queues, the last-check times and the error texts stored with verdicts.
- EngineRuntime.Engine.BeginCreate: does not pick the port or draw the credentials; running out of ports is a refusal of `HealthPass.Worker.CreateTunnel`, and a failed rendering and a failed container start are its same rollback.
- Framing.ReadBody: the throughput is the bytes it counts over the elapsed time; the division and rounding are not modelled.
- Refresh.BatchProbe: the probes of a chunk run in threads; their answers are a function of the node here, collected in submission order.
- Refresh.ProbeNew: no health pass or scrape runs between its steps.
- HealthPass.Worker.HealthCheck: that `Wait` really lets others run is its contract, not its body; the proof uses the contract only. A SQLite error in the middle of a pass is not modelled.
