# Verification of the KubeVirt cloud provider

A Dafny model of the three stateful parts of the KubeVirt cloud provider, with proofs.

* **EndpointSlice packing** (`Slice*.dfy`). One run of the EndpointSlice controller takes the stored slices of a Service
  and the desired endpoints, sorts the slices into worklists, fills spare room, creates at most one slice and issues
  API calls. `SliceObjects` and `SliceReconcile` are that run on mutable slice objects against an API server that may
  fail at any call; `SliceModel` and `SliceFinalize` say what it computes; the other modules prove what the runs
  guarantee, single runs first, then prefixes of calls, then chains of runs.
* **Load-balancer lifecycle** (`Endpoints`, `Listeners`, `ListenerIds`, `IdPreservation`, `Deletion`, `Lifecycle`,
  `Controller`, `NoLeak`, `Recreation`, `GiveUp`, `HashGuard`, `Readiness`, `HostUpdates`, `Bookkeeping`, `Settings`,
  `OptimisticWrites`). Each sync is a step over the durable annotations, the in-memory retry counters and a remote
  server with idempotency keys. `Controller` is the code on objects, `Lifecycle` the step it is proved equal to, the
  remaining modules what one step answers, sends and writes, and the results about runs of steps. Every fault, every
  answer of the server and every observed readiness is chosen freely by an `Oracle` value.
* **RPC retry loop and backoff** (`RetryLoop`, `Backoff`), with 64-bit wrap-around written out.

`dafny verify dfyconfig.toml` checks everything. `Seqs` and `Text` hold sequence and string facts.

## What the proofs found

* `finalize` reslices the list of creations before reading its first element. A run creates at most one slice, so any
  slice that could be recycled makes it read out of range, before the first API call. `WhenItReadsOutOfRange` gives the
  exact condition on any listing, `AfterACompletedRun` in steady state; replacing the only endpoint of a Service is
  enough (`ReplacingTheOnlyEndpoint`). As long as Service, desired set and capacity stay the same, a completed run is
  followed by safe ones (`SameSettingIsSafe`). The results about packing hold both for the intended order (`corrected`)
  and for the code as written where it does not read out of range.
* A Service with a selector and policy Local for which endpoints are found never settles: each pass creates a slice per
  address type and deletes those of the pass before, so after each completed pass at most one slice full per type is
  stored (`SelectorNeverSettles`). With another policy nothing is desired, and it settles after one pass
  (`OnlyPolicyLocalStirs`).
* The recreate branch ignores the answer to its deletion; if that deletion is lost, a second load balancer goes live
  beside the first (`IgnoredDeletionErrorLeaks`). `EnsureKeepsTight` gives the exact condition of a leak.
* If the create-count write of a recreation is lost, the next recreation replays the load balancer it has just deleted
  (`LostCountReplaysTheDeleted`); that is the only way to get it back (`WhenRecreationReplays`).
* A creation replayed after the listeners changed records the hash of listeners the server does not have
  (`StaleReplayHappens`); an update or a change of name whose hash is not written keeps an old one
  (`UnrecordedUpdateLies`, `UnrecordedNameHappens`). `EnsureAgrees` and `UpdateAgrees` say exactly when.
* A load balancer whose recreation lost its response is named again by the next sync that gets past its read with the
  retries used up and a creation left, and whose creation and id write succeed; by nothing else (`WhenFoundAgain`). On a
  server that answers NotFound for the deleted id none does (`StuckAfterALostRecreation`). Deleting the Service before
  that leaves it behind (`WhenDeletionLeaks`).
* With the 100ms base, backoff attempt 36 can be negative and attempt 37 panics (`BeyondTheBoundary`). RetryMax is 3
  unless `rpcRetryMax` overrides it (pkg/provider/cloud.go:238-239), and nothing bounds that setting.
* The comment on `listenerProtocol` says HTTP applies only on top of TCP and SCTP is served as plain TCP; the code turns
  SCTP ports into HTTP too when the route annotation is present. The model follows the code.
* A route path longer than 1024 characters passes local validation and is rejected by the API (`LongPathIsRejected`).

## Assumptions stated in the contracts

* The endpoint hash, the listener hash and the idempotency keys are uninterpreted; injectivity is a `requires` where a
  result needs it (endpoint keys are injective by construction: `Key` holds the hashed fields).
* The annotations passed to a sync are the stored ones. New load balancers get ids of their own (`FreshId`). A server
  reconciles updates by id (`Reconciled`) and, asked for distinct ports and protocols, keeps ids apart (`Orderly`);
  `ContractCanBeMet` shows such a server exists.

## Model

| member | source | states |
|---|---|---|
| `Backoff.SafeIffNoOverflow` | pkg/rpc/loadbalancer/client.go:229-242 | for attempt >= 1 and a positive base, no 64-bit overflow can occur for any draw, and a draw exists, exactly when 3 * base * 2^(attempt-1) <= 2^63 |
| `Backoff.SafeDelay` | pkg/rpc/loadbalancer/client.go:229-242 | inside that range the jitter argument is positive and the delay is min(base * 2^attempt + jitter, 5s), between min(base * 2^attempt, 5s) and 5s |
| `Backoff.ProviderBoundary` | pkg/provider/cloud.go:229 | with the provider's 100ms base the range is exactly the attempts up to 35 |
| `Backoff.BeyondTheBoundary` | pkg/rpc/loadbalancer/client.go:229-242 | attempt 36 has a draw with a negative delay, attempt 37 panics for every draw |
| `RetryLoop.RetryOnFailure` | pkg/rpc/loadbalancer/client.go:165-227 | the loop: result, number of requests sent and time waited as the specification says, over the attempts it starts |
| `RetryLoop.TriedMeaning` | pkg/rpc/loadbalancer/client.go:165-227 | the attempts started: all before the last are transient, and unless they are used up the last one is not |
| `RetryLoop.Effort` | pkg/rpc/loadbalancer/client.go:165-242 | so there are at most RetryMax + 1 requests and at most RetryMax * 5s of waiting |
| `RetryLoop.RetrySemantics` | pkg/rpc/loadbalancer/client.go:165-227 | for every RetryMax, told from what happens in the attempts: nil iff some attempt succeeds before any that is not transient; a terminal code is returned unchanged, the caller's own end is, or the draw panics, iff that comes first; exhausted, with the cause of the last attempt, iff every attempt was transient |
| `RetryLoop.NoPanic` | pkg/rpc/loadbalancer/client.go:165-242 | with every attempt in the overflow-free range no draw panics |
| `RetryLoop.FirstDecisiveAttempt` | pkg/rpc/loadbalancer/client.go:165-227 | the first attempt that is not transient alone fixes the result: success, rejection, the caller's end or a panic, each iff that attempt is one |
| `RetryLoop.AllTransient` | pkg/rpc/loadbalancer/client.go:165-227 | without one, the cause of the last attempt is reported after RetryMax + 1 attempts: no connection, an error without a status, or one with a transient code |
| `SliceModel.EnsureLabelsMeaning` | pkg/controller/kubevirteps/kubevirteps_controller.go:719-743 | the service name, manager and headless labels are exactly the desired ones, every other label comes from the Service first and the slice second |
| `SliceModel.EnsureLabelsIdempotent` | pkg/controller/kubevirteps/kubevirteps_controller.go:719-743 | the label map produced is a fixed point of label enforcement |
| `SliceObjects.EndpointSet.Insert` | vendor/k8s.io/endpointslice/util/endpointset.go:54-59 | of two endpoints with one key the later one stays |
| `SliceObjects.EndpointSet.PopAny` | vendor/k8s.io/endpointslice/util/endpointset.go:90-96 | takes some element out of the set, nothing only when the set is empty |
| `SliceObjects.EnsureEndpointSliceLabels` | pkg/controller/kubevirteps/kubevirteps_controller.go:719-743 | computes the label map and whether it differs from the slice's |
| `SliceObjects.ClassifySlices` | pkg/controller/kubevirteps/kubevirteps_controller.go:494-529 | step 1 on slice objects: each slice is rewritten in place and put on one of three worklists, the desired set loses what is covered |
| `SliceObjects.FillExisting` | pkg/controller/kubevirteps/kubevirteps_controller.go:530-560 | steps 2 and 3 on slice objects, popping from the shared set in any order |
| `SliceObjects.PackSlices` | pkg/controller/kubevirteps/kubevirteps_controller.go:467-577 | steps 1 to 4 yield exactly the worklists of the plan, for some order of popping |
| `SliceLaws.CoverLaw` | pkg/controller/kubevirteps/kubevirteps_controller.go:502-515 | covering moves each desired key at most once from the set to the slice, and does so iff the slice holds it |
| `SliceLaws.SettleLaw` | pkg/controller/kubevirteps/kubevirteps_controller.go:494-529 | a slice kept by step 1, changed or not, keeps each still-wanted key it held exactly once |
| `SliceLaws.SettleShape` | pkg/controller/kubevirteps/kubevirteps_controller.go:494-529 | a slice kept by step 1 has the desired ports, its own labels with the demanded ones put in, its owners and address type, and only endpoints as desired; none grows |
| `SliceLaws.ClassifyLaw` | pkg/controller/kubevirteps/kubevirteps_controller.go:494-529 | over all slices: every desired key is kept exactly once or still in the set, kept iff some slice held it; no slice is lost |
| `SliceLaws.FillAllLaw` | pkg/controller/kubevirteps/kubevirteps_controller.go:530-560 | filling conserves every endpoint key |
| `SliceLaws.FillAllShape` | pkg/controller/kubevirteps/kubevirteps_controller.go:530-560 | filling only appends, within capacity, and leaves exactly what the spare room cannot take |
| `SliceFinalize.IntendedRecycles` | pkg/controller/kubevirteps/kubevirteps_controller.go:591-605 | the recycling its comment intends: as many deletions as possible, in order, become updates carrying a new slice under the deleted name; every other entry stays in place |
| `SliceFinalize.IntendedLeavesNoPair` | pkg/controller/kubevirteps/kubevirteps_controller.go:591-605 | afterwards creations or eligible deletions have run out |
| `SliceFinalize.WrittenOutOfRange` | pkg/controller/kubevirteps/kubevirteps_controller.go:594-605 | the loop as written reads out of range iff there is something to create and eligible deletions suffice for all of it |
| `SliceFinalize.CorrectedIsIntended` | pkg/controller/kubevirteps/kubevirteps_controller.go:591-605 | on a plan, which creates at most one slice, the corrected worklists are those of the intended loop with the renaming carried out |
| `SliceReconcile.IsOwnedBy` | pkg/controller/kubevirteps/kubevirteps_controller.go:582-589 | ownership by uid, kind and API version |
| `SliceReconcile.RecycleWritten` | pkg/controller/kubevirteps/kubevirteps_controller.go:591-605 | the loop as written, on slice objects, including where it reads out of range |
| `SliceReconcile.RecycleIntended` | pkg/controller/kubevirteps/kubevirteps_controller.go:591-605 | the loop as its comment intends, on slice objects; terminates on len(slicesToDelete) - i and touches no name but those of recycled slices |
| `SliceReconcile.PerformAll` | pkg/controller/kubevirteps/kubevirteps_controller.go:607-643 | calls are issued in order until one fails. Success iff every call is answered, accepted and in its turn; swallowed iff the first that is not is a creation a terminating namespace turns away; an error otherwise. The effects are those of the calls before it, and of it iff only its answer was lost |
| `SliceReconcile.SoundInTurn` | pkg/controller/kubevirteps/kubevirteps_controller.go:607-643 | on a listing of what is stored every planned call comes in its turn: creations under unused names, updates and deletions of slices still there |
| `SliceReconcile.RunGuarantees` | pkg/controller/kubevirteps/kubevirteps_controller.go:467-643 | on such a listing a run completes iff it has no recyclable pair and no call meets a fault; then the stored slices are exactly the planned ones |
| `SliceReconcile.CollectCalls` | pkg/controller/kubevirteps/kubevirteps_controller.go:607-643 | creations (unless the Service is being deleted), then updates, then deletions |
| `SliceReconcile.ReconcileByAddressType` | pkg/controller/kubevirteps/kubevirteps_controller.go:467-643 | the whole run as written: out-of-range read before any call iff the plan has a recyclable pair, otherwise result and effects of the planned calls as for `PerformAll`; on a listing of what is stored, desired keys never go missing, it succeeds iff there is no such pair and no fault, and a completed run leaves each key placed once and each slice in shape |
| `SliceRuns.SoundRun` | pkg/controller/kubevirteps/kubevirteps_controller.go:494-605 | every stored slice ends up on exactly one worklist or untouched, under its own name |
| `SliceRuns.FinalIsListing` | pkg/controller/kubevirteps/kubevirteps_controller.go:607-643 | what is stored after all calls is exactly the planned slices |
| `SliceTheorems.MakeBeforeBreak` | pkg/controller/kubevirteps/kubevirteps_controller.go:502-643 | at every prefix of the calls, so also in an aborted run, each desired key stored before is still stored, duplicates in the old slices or not |
| `SliceTheorems.PlanLaw` | pkg/controller/kubevirteps/kubevirteps_controller.go:489-577 | a plan places every desired endpoint once or leaves it over |
| `SliceTheorems.PlanShape` | pkg/controller/kubevirteps/kubevirteps_controller.go:489-577 | what it leaves over is exactly max(0, desired - covered - spare room - capacity) |
| `SliceConvergence.ExactlyOnce` | pkg/controller/kubevirteps/kubevirteps_controller.go:489-577 | after a completed run each stored key is desired, in exactly one slot of one slice, and agrees with the desired endpoint; a desired key is stored iff it is not left over |
| `SliceConvergence.CapacityPortsLabels` | pkg/controller/kubevirteps/kubevirteps_controller.go:498-577 | ports exact; an old slice keeps its owners, address type and labels, the demanded ones put in, and has at most max(its old size, capacity) endpoints; a new one is owned by the Service alone, carries the Service's labels only and holds between 1 and capacity endpoints |
| `SliceProgress.OneRun` | pkg/controller/kubevirteps/kubevirteps_controller.go:494-577 | any run places exactly what the spare room of its kept slices and one new slice take |
| `SliceProgress.LaterRun` | pkg/controller/kubevirteps/kubevirteps_controller.go:494-577 | after a completed run the next keeps every slice, deletes none, places min(unplaced, capacity), and makes no call when nothing is unplaced |
| `SliceProgress.Convergence` | pkg/controller/kubevirteps/kubevirteps_controller.go:494-579 | chains of runs: the exact remainder after the first run, u minus capacity per further run, no call and no change once it reaches 0 |
| `SliceOutOfRange.WhenItReadsOutOfRange` | pkg/controller/kubevirteps/kubevirteps_controller.go:594-605 | on any listing, the run as written reads out of range iff some owned slice of this type holds no desired key that no earlier slice holds (and is not an empty slice with right ports and labels), and more desired keys are held nowhere than the other slices have room for |
| `SliceOutOfRange.AfterACompletedRun` | pkg/controller/kubevirteps/kubevirteps_controller.go:467-605 | the same on what a completed run left, for any next Service, desired set and capacity, told from the stored slices without their order |
| `SliceOutOfRange.ReplacingTheOnlyEndpoint` | pkg/controller/kubevirteps/kubevirteps_controller.go:594-605 | a run places the only endpoint; then another one is desired instead, and the next run reads out of range |
| `SliceOutOfRange.SameSettingIsSafe` | pkg/controller/kubevirteps/kubevirteps_controller.go:594-605 | after a completed run, while Service, desired set and capacity stay the same, the loop as written is not reached with a recyclable pair |
| `SliceSelector.SortSlices` | pkg/controller/kubevirteps/kubevirteps_controller.go:411-433 | sorts the existing slices into those to delete and those to reconcile, by address type |
| `SliceSelector.WhereSlicesGo` | pkg/controller/kubevirteps/kubevirteps_controller.go:411-433 | for a Service gone or with a selector, exactly the slices labelled with this controller's name are deleted, foreign ones spared; otherwise exactly those of unsupported types are deleted and the others reconciled with their type |
| `SliceSelector.SelectorNeverSettles` | pkg/controller/kubevirteps/kubevirteps_controller.go:418-457 | while something is desired and the Service stays: over any number of completed passes and address types each creates a slice per type and deletes the ones of the pass before, so after each pass one slice full per type is stored |
| `SliceSelector.WhenItSettles` | pkg/controller/kubevirteps/kubevirteps_controller.go:418-457 | on such a chain with an address type to serve, a pass after the first makes no call iff nothing is desired or the Service is being deleted |
| `SliceSelector.OnlyPolicyLocalStirs` | pkg/controller/kubevirteps/kubevirteps_controller.go:662-664 | so a Service with a selector settles iff its policy is not Local, no endpoint is found, or it is being deleted |
| `SlicePasses.WholePassMakesBeforeBreak` | pkg/controller/kubevirteps/kubevirteps_controller.go:418-457 | without a selector: at every prefix of all calls of one reconcile, over all address types and the deletions last, each desired key a slice of a served type held is held by a slice of that type, whatever run fails or reads out of range |
| `SlicePasses.UnsupportedGone` | pkg/controller/kubevirteps/kubevirteps_controller.go:427-457 | after the whole pass no slice of an unsupported type is left |
| `Text.HostPortInjective` | pkg/provider/loadbalancer.go:830 | the "%s:%d" key is injective although IPv6 addresses contain colons |
| `Endpoints.SortedIsUnique` | pkg/provider/loadbalancer.go:838-843 | a strictly sorted list is determined by its elements |
| `Endpoints.NormalizeEndpoints` | pkg/provider/loadbalancer.go:826-846 | deduplicating by the printed key and sorting yields the canonical list of the same endpoints, without repetition |
| `Endpoints.NormalizeForgetsOrder` | pkg/provider/loadbalancer.go:826-846 | two inputs normalize alike iff they hold the same endpoints |
| `Endpoints.BuildEndpoints` | pkg/provider/loadbalancer.go:787-823 | the loops over nodes and addresses compute the specified list |
| `Endpoints.WhatIsChosen` | pkg/provider/loadbalancer.go:787-823 | an address is used iff it is a usable internal one, or there is none and it is a usable external one, or there is neither and the fallback selected it |
| `Endpoints.OrderIndependence` | pkg/provider/loadbalancer.go:779-846 | the list depends only on the set of (type, address) pairs and the set of fallback addresses |
| `Listeners.ParseMeaning` | pkg/provider/loadbalancer.go:757-776 | method names are recognised letter by letter whatever their case, anything else is GET |
| `Listeners.BuildListeners` | pkg/provider/loadbalancer.go:604-669 | the loop over ports computes the specified listeners |
| `Listeners.WhereTrafficGoes` | pkg/provider/loadbalancer.go:604-682 | listener i serves port i; it is UDP iff the port is, HTTP iff the port is not UDP and the path annotation is there, TCP otherwise; its one rule matches what the path and method annotations say, on HTTP only, its health check asks for the same; it forwards exactly to the node port of the chosen addresses |
| `Listeners.FingerprintIsStable` | pkg/provider/loadbalancer.go:779-846 | permuting or duplicating nodes or addresses changes neither the listeners nor their hash |
| `Listeners.ValidateListeners` | pkg/provider/loadbalancer.go:741-755 | accepts iff there is a listener and every backend has an endpoint, otherwise names the first offending port |
| `Listeners.BuiltIsAllowed` | pkg/rpc/loadbalancer/gen/loadbalancer.proto:246-482 | built listeners satisfy the API's constraints iff they pass validation, ports and node ports are in 1..65535, no backend exceeds 256 endpoints and an HTTP route path starts with '/' and has at most 1024 characters |
| `Listeners.LongPathIsRejected` | pkg/rpc/loadbalancer/gen/loadbalancer.proto:260-270 | a Service with any longer route path: its listeners pass validation and are rejected |
| `ListenerIds.KeysAreExact` | pkg/provider/loadbalancer.go:735-737 | two listeners share a key iff they share port and protocol |
| `ListenerIds.WhenKeysCollide` | pkg/provider/loadbalancer.go:674-682 | two Service ports collide iff same number and neither or both UDP |
| `ListenerIds.MergeListenerIDs` | pkg/provider/loadbalancer.go:694-733 | grafts onto clones only: the result is made of new objects and nothing passed in is modified |
| `IdPreservation.GraftedIds` | pkg/provider/loadbalancer.go:694-733 | which ids a merge sends, duplicates or not: those of the last served listener with the key, of the rule iff both sides have one, of the backend iff both have one |
| `IdPreservation.NothingGrafted` | pkg/provider/loadbalancer.go:694-733 | a desired listener whose key the server does not serve is sent as it is, without ids |
| `IdPreservation.IdsKept` | pkg/provider/loadbalancer.go:684-733 | a listener in both lists keeps its id, and its rule and backend theirs in the one-rule-one-backend shape |
| `IdPreservation.OnlyUndesiredRemoved` | pkg/rpc/loadbalancer/gen/loadbalancer.proto:679-683 | the server ends up with the desired content, and drops a listener iff its key left the desired list |
| `IdPreservation.NoIdSentTwice` | pkg/provider/loadbalancer.go:694-733 | an id is sent twice exactly where two desired listeners share a key the server serves |
| `IdPreservation.MergeKeepsContent` | pkg/provider/loadbalancer.go:694-733 | erasing ids from the result gives the id-erased desired list |
| `IdPreservation.UnchangedUpdateIsNoOp` | pkg/rpc/loadbalancer/gen/loadbalancer.proto:679-683 | sending what the server already serves changes nothing, ids included |
| `Deletion.FirstNamedMeaning` | pkg/provider/loadbalancer.go:1003-1032 | the specification of the lookup: the first match, or none anywhere |
| `Deletion.FindLoadBalancerByName` | pkg/provider/loadbalancer.go:1006-1032 | over any finite chain of pages: the first name match in the concatenated pages, empty iff all pages were read and none matches, an error otherwise |
| `Recreation.DeletionByName` | pkg/provider/loadbalancer.go:959-1001 | success without an id annotation means the first match's deletion was accepted or answered NotFound, or that a complete listing has no match |
| `Recreation.DeletionById` | pkg/provider/loadbalancer.go:959-1001 | with one, exactly that load balancer goes, iff the deletion takes effect, and success means it was accepted or answered NotFound; unless the Service is left to another controller the retry counter is cleared |
| `Recreation.WhenDeletionLeaks` | pkg/provider/loadbalancer.go:959-1001 | after a successful deletion something is live iff the next creation's key holds another live load balancer |
| `Controller.LoadBalancer.EnsureLoadBalancer` | pkg/provider/loadbalancer.go:185-406 | the branches in order, on the annotations, the retry counter and the server, equal to the specified step |
| `Controller.LoadBalancer.UpdateLoadBalancer` | pkg/provider/loadbalancer.go:902-956 | equal to the specified step |
| `Controller.LoadBalancer.EnsureLoadBalancerDeleted` | pkg/provider/loadbalancer.go:959-1001 | equal to the specified step |
| `Controller.LoadBalancer.PollLoadBalancerReady` | pkg/provider/loadbalancer.go:136-182 | returns the first observation that serves unless one before it had failed |
| `NoLeak.EnsureKeepsTight` | pkg/provider/loadbalancer.go:209-362 | one sync keeps "at most one live, named or replayable by the next key" iff it does not orphan the named one: recreate while its deletion has no effect, with a creation that makes a second one or moves the name to another |
| `NoLeak.NothingLeaks` | pkg/provider/loadbalancer.go:209-362 | the same over whole runs with lost requests, responses and writes, restarts, host updates, other annotation writers and load balancers vanishing |
| `NoLeak.IgnoredDeletionErrorLeaks` | pkg/provider/loadbalancer.go:325 | a state and a sync, with the deletion request lost, after which two are live |
| `Recreation.KeysDiffer` | pkg/provider/loadbalancer.go:424-433 | no two attempts share an idempotency key, and only the first uses the uid, if derived UUIDs differ by name and from the uid |
| `Recreation.WhenRecreationReplays` | pkg/provider/loadbalancer.go:313-362 | in every run, with such keys: the next creation gets the named load balancer back iff the sync that last wrote the id was a recreation whose count write did not land |
| `Recreation.RecreationIsAnother` | pkg/provider/loadbalancer.go:313-362 | so if recreations that write the id also write the count, a recreation never gets back what it deleted |
| `Recreation.LostCountReplaysTheDeleted` | pkg/provider/loadbalancer.go:357-359 | if the count write of a recreation is lost, the next one deletes its load balancer, gets it back by replay, and none is live |
| `Recreation.FoundOrForgotten` | pkg/provider/loadbalancer.go:264-362 | a live load balancer only the next key leads to, beside a dead named one: a sync that writes the id names it again, anything else leaves it just so |
| `Recreation.WhenFoundAgain` | pkg/provider/loadbalancer.go:264-362 | over runs: it is named again iff some sync writes the id while it is still forgotten |
| `Recreation.StuckAfterALostRecreation` | pkg/provider/loadbalancer.go:264-267 | the case in which every read fails: after a recreation whose deletion took effect and whose creation did so unheard, on a server where reading a dead id fails, over any further syncs, host updates, restarts and annotation writes the new load balancer stays live and replayable by the next key, is never named, and outlives the Service |
| `GiveUp.StageNext` | pkg/provider/loadbalancer.go:309-405 | each sync moves one stage on in (creations, retries) |
| `GiveUp.BoundedGiveUp` | pkg/provider/loadbalancer.go:55-56 | a load balancer that never gets ready: every sync fails, exactly 3 creations, the permanent error from sync 34 on and not before |
| `HashGuard.EnsureAgrees` | pkg/provider/loadbalancer.go:209-395 | whatever is lost, a sync keeps "the recorded hash is that of the served listeners" iff it neither records the current hash over a replayed creation with other listeners, nor moves the name or updates without the hash being written while the old hash is of something else |
| `HashGuard.UpdateAgrees` | pkg/provider/loadbalancer.go:928-951 | a host update keeps it iff it does not take effect unrecorded while the old hash is of something else |
| `HashGuard.AlwaysAgrees` | pkg/provider/loadbalancer.go:209-395 | the same over whole runs |
| `HashGuard.GuardLosesNothing` | pkg/provider/loadbalancer.go:574-576 | in every such state, with distinct ports and protocols in what was sent, the update skipped on a matching hash would leave the server as it is, ids included |
| `HashGuard.GuardLosesNothingBuilt` | pkg/provider/loadbalancer.go:574-576 | in particular for what the controller builds, whatever the Service |
| `IdPreservation.BuiltShape` | pkg/provider/loadbalancer.go:604-669 | what it builds carries no ids and has one rule with one backend everywhere |
| `HashGuard.UnrecordedUpdateLies` | pkg/provider/loadbalancer.go:928-951 | after such an update in UpdateLoadBalancer a sync back to the old list sends nothing although the server serves the new one |
| `HashGuard.UnrecordedEnsureLies` | pkg/provider/loadbalancer.go:271-277 | the same after the two branches of EnsureLoadBalancer that update: nothing would be sent for the old list, and the server serves the new one |
| `HashGuard.StaleReplayLies` | pkg/provider/loadbalancer.go:229-251 | after recording over a stale replay the desired list is never sent, although the replayed one is served |
| `HashGuard.UnrecordedNameLies` | pkg/provider/loadbalancer.go:343-360 | after the name moved unrecorded a sync back to the old list sends nothing, although another one is served |
| `HashGuard.StaleReplayHappens` | pkg/provider/loadbalancer.go:229-251 | from an unseen Service, two syncs get there: a creation unheard, then any other listeners |
| `HashGuard.UnrecordedNameHappens` | pkg/provider/loadbalancer.go:343-360 | from an unseen Service, twelve syncs get there: a creation, ten that wait, a recreation with other listeners whose id lands unheard |
| `HashGuard.AlwaysWellKept` | pkg/rpc/loadbalancer/gen/loadbalancer.proto:679-683 | along such runs the server serves each port and protocol once and shares no id |
| `Readiness.PollMeaning` | pkg/provider/loadbalancer.go:136-182 | the poll yields a view iff it is the first decisive observation and serves |
| `Readiness.SyncAnswers` | pkg/provider/loadbalancer.go:185-406 | every sync: it publishes iff it decides on an observation, the read of the branch without a poll or the first decisive poll after an answered and named creation, an answered update or a wait for the floating IP; then one address of that load balancer, READY with an ip and, if enabled, an active floating IP, which wins. Every failure is given iff its cause applies, nothing is answered iff the Service is being deleted, and a creation is sent, under the next key, iff the sync creates |
| `HostUpdates.HostUpdateAnswers` | pkg/provider/loadbalancer.go:902-956 | a host update that is due succeeds iff it is answered on a live load balancer; without one due, iff another controller is responsible or the hash matches; each failure has its one cause |
| `HostUpdates.HostUpdateServes` | pkg/provider/loadbalancer.go:928-951 | a due update that takes effect leaves the named load balancer serving the desired listeners, heard or not; otherwise nothing changes, and no other load balancer or counter ever does |
| `HostUpdates.WhatIsSent` | pkg/provider/loadbalancer.go:185-406 | what a sync does to the server: one update, one creation after the deletion of the old one, one deletion, or nothing |
| `HostUpdates.UpdateKeepsIds` | pkg/provider/loadbalancer.go:902-956 | whichever entry point updates: the served content becomes the desired one, a served listener stays, under its ids, iff it is still desired |
| `Bookkeeping.RetryCounter` | pkg/provider/loadbalancer.go:259-403 | exactly when the retry counter starts over, counts one or stays; other Services' counters stay |
| `Bookkeeping.AnnotationsWritten` | pkg/provider/loadbalancer.go:241-403 | all annotations a sync writes, with what value and exactly when: id, create count, listener hash, internal address; every other one is left alone |
| `Settings.WhenFipIsWanted` | pkg/provider/loadbalancer.go:465-483 | a floating IP is wanted iff the annotation, or else the configuration, says nothing, "external" or "both", whatever the case; likewise for the other two modes |
| `Settings.WhatCounts` | pkg/provider/loadbalancer.go:435-442 | the create count is the number written, 0 when there is none |
| `OptimisticWrites.EnsureServiceAnnotation` | pkg/provider/loadbalancer.go:1034-1049 | under any interleaving: a conflict iff all 5 attempts are beaten by a commit between read and update; otherwise the first attempt not beaten decides, an error iff its read or update fails, success iff the value stands or is committed; the history only grows, by others' commits and at most one own right on top of the version just before |
| `OptimisticWrites.OthersSurvive` | pkg/provider/loadbalancer.go:1034-1049 | an own commit changes one annotation and nothing else, and every committed version of others stays in the history |

## Left out

- gRPC dialing, credentials, keep-alive, connection-state waiting and real clocks; attempts, polls and waits are sequences of outcomes, and a poll that runs out of observations stands for its timeout or the caller's cancellation.
- The read-only `GetLoadBalancer` entry point.
- The check for a missing RPC client, log messages, error texts and error-code mapping.
- SHA-256, JSON, UUID and endpoint-hash computation; hashing an endpoint also sorts its address list in place, which the model does not show.
- IP parsing: `isUsableNodeIP` is a parameter. The VMI lookup of the endpoint fallback, informers, event handlers and metrics: the selected addresses and the desired endpoints are inputs.
- The Kamaji patch, provider-id formatting, instance metadata, configuration loading and the tenant EndpointSlice tracker.
- `reconcile` as one method on objects: `SortSlices` and `ReconcileByAddressType` are methods, their composition over the address types is on values (`SlicePasses`, `SliceSelector`).
- `RecycleIntended` is not part of a complete object-level run: the complete run on objects is the one as written; the corrected one is proved on values, tied to the loop by `CorrectedIsIntended`.
- Two processes syncing one Service at the same time, and annotations edited by hand: the durable-state invariants do not survive either.
- Header and query matches, hostnames, TLS material and server-side fields the controller never sends.
- Concurrent access to the retry counters of different Services; the counters are a map in which a sync touches only its own entry.
- Lifecycle steps treat one annotation write as atomic with three outcomes (landed, refused, landed unheard); that this is what the retrying write does is `OptimisticWrites`.
