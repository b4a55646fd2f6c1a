# Verified models of the SSH proxy registry and the WebSSH sessions

This project proves properties of the two stateful parts of the repository and
of four self-contained algorithms beside them.

`registry/` models the instance registry of `proxy/main.go`: the four hierarchy
maps, the flat index that detached goroutines write, the idle reaper and the
listings.

- `RegistryState` is the registry as a state machine. Each handler and each
  reaper pass is one step; every `go` write is queued and lands in a step of its own.
- `InstanceHistory` follows one instance: what each step does to its entries, and who
  can take it out.
- `CacheRefinement` treats the flat index as a cache of the buckets: what it holds
  once the outstanding writes have landed, and what keeps that in agreement.
- `CacheRuns` says, for every run and every landing order, exactly when it is right.
- `ReaperTiming` adds clock times: who is never reaped, and who is reaped by when.
- `PingSpacing` says in request times alone when the reaper can come too early.
- `Listings` compares the four listings with each other and with a plain filter.
- `RegistryHeap` is the program itself on heap objects, with the aliasing that
  the providers of `addInstance` create. Its methods refine the state machine.

`webssh/` models the WebSSH server.

- `SessionState` is the life of workers, tables and POSTs as a state machine.
  A table of workers has an identity: a POST captures it before its `yield`, and
  it can be emptied, dropped from `clients` and put back meanwhile.
- `SessionTables`, `SessionOverlap`, `SessionLife`, `SessionCap` and `SessionCount`
  prove what every run keeps: who is in which table, what overlapping POSTs do to it,
  the output stream, timers, claims and teardown of each worker, how many entries a
  table can have, and when that limits the live workers of an address.
- `SessionText`, `SessionSteps` and `SessionAnswers` say what the channel gets of what
  the browser sent, which events end a worker, and who is let in.
- `SessionHeap` is `Worker`, `WsockHandler` and the handlers as classes that
  change their fields in place, with `close` re-entered through `on_close`.
- `SessionLoop` is the event loop that calls them: between any two events the
  objects in memory are where the machine is after the events so far, so the
  theorems about runs are theorems about the objects.
- `HostKeyPolicy`, `KeyHeader`, `PrimaryDomain` and `Backspaces` are the
  trust-on-first-use policy, the search for a key's header line, the comparison
  of primary domains and the backspace loop of the transcript.

## What the code does not do

Some properties one would expect are false of the code. Each has a run that shows
it and a condition that says exactly when the code is right.

- The flat index can keep an instance that its bucket no longer has, for ever.
  It happens when a DELETE's write lands before the POST's (`OvertakenPostIsStranded`)
  and when the reaper strikes an instance whose latest ping has not landed yet
  (`EarlyStrikeIsStranded`). These two are all: over every run, whatever the landing
  order, index and buckets agree after every step if and only if no write overtakes and
  nothing is struck with a write outstanding (`AgreementIsExact` for one instance,
  `UnionIsExact` for the whole index). In request times, with writes landing
  within D and pings at most P apart, no instance can be hit in the second way if and
  only if P + D is within the timeout (`SafeTimeoutsExactly`).
- A revision listing shows instances of another service when the path mixes names
  that were posted separately (`MixedPathShowsForeignInstance`); it equals the
  filter exactly when the revision's instances belong to the requested project,
  region and service (`RevisionListingIsExact`).
- `maxconn` bounds a table by `maxconn - 1 + k` when `k` POSTs of its address overlap,
  and by 1 when `maxconn` is 1 or less; `LimitIsReached` fills a table to the bound.
- It does not bound the live workers of an address. With two POSTs in flight at most,
  any number of workers can be alive and claimed (`LiveWorkersAreNotCapped`), because
  those of a replaced table are counted nowhere. There is a bound if and only if POSTs
  of the address do not overlap (`LiveWorkersAreCappedExactly`).
- When POSTs of one address overlap, a finished POST can replace the table of its
  address, and the assertion in `clear_worker` fails later (`OverlapBreaksClear`). It
  has not failed, and will not fail whichever worker closes next, if and only if every
  POST that came back found its address without a table or with the one it had
  captured (`ClearWorkerFailsExactly`).
- A host that the system's known hosts list with another kind of key makes the
  policy ignore the user's stored key, so a changed key is accepted
  (`ShadowedKeyIsAccepted`); `OneKeyExactly` and `ConflictIsRefusedExactly` give the conditions.
- The file of host keys falls behind the memory exactly from the first write that
  raises (`FileIsMemoryExactly`, `FailedWriteLags`).
- Regions, services and revisions with an empty name have no listing of their own, so
  a listing one level up is the union of those below exactly if it shows none of them
  (`NamelessRegionHasNoListing`, `ProjectIsUnionOfRegionsExactly`).
- The backspace loop never ends if and only if some line ends up with a backspace
  that has nothing left to erase (`LoopEndsExactly`). The pattern's dot also matches
  a backspace, so two of them in front of a line cancel each other.

## Assumptions

- `GetOrCompute` of the concurrent maps returns a present value without calling
  the provider, and otherwise calls it once and stores its result.
- paramiko's lookup takes the first stored entry of the right kind; its result is
  empty only when no entry names the host.
- `chan.send` takes any prefix of what it is given, or raises; on a closed channel it raises.
- Worker IDs are fresh. Key parsers are functions of kind, text and passphrase.
- Text of the transcript is a sequence of UTF-16 code units, as a pattern without
  the `u` flag reads it; line terminators are those of section 12.3 of ECMA-262.

## Model

| member | source | states |
|---|---|---|
| RegistryState.StepKeepsShape | proxy/main.go:310-425 | Every step keeps records under their own ID and in their own revision's bucket, and every record's project, region, service and revision among the map keys |
| RegistryState.RunKeepsShape | proxy/main.go:218-425 | The same for every run |
| RegistryState.UpperKeysAreThePostedNames | proxy/main.go:349-384 | In every reachable state a name is a key of an upper map exactly if some accepted POST named it at that level, each level independently of the others |
| RegistryState.WalkIsExact | proxy/main.go:404-408 | In every reachable state the five-level walk finds an instance exactly if project, region and service have each been posted at some time and the revision's bucket holds the instance now |
| RegistryState.RegistrationKeepsWalks | proxy/main.go:343-384 | After a POST the walk under its names ends at the new record, and every walk that resolved before resolves to the same record, except to the re-registered ID of that revision |
| RegistryState.DeleteUndoesPost | proxy/main.go:404-415 | A DELETE by the registering client right after the POST of a new instance empties its walk and leaves every bucket entry as before the POST |
| RegistryState.UpperKeysOnlyGrow | proxy/main.go:376-384 | No run takes a key out of an upper map or drops a bucket |
| InstanceHistory.RemoveExactly | proxy/main.go:393-422 | A DELETE has an effect if and only if its client is given and its path leads to a record that this client registered |
| InstanceHistory.BucketStep | proxy/main.go:218-425 | Any bucket entry after any step: the record of an accepted POST for it, nothing after its owner's DELETE or a pass that finds it idle, otherwise as before |
| InstanceHistory.FlatStep | proxy/main.go:218-425 | Any flat entry after any step: what a landing write for it says, nothing after a pass that finds it idle and in its bucket, otherwise as before |
| InstanceHistory.PendingStep | proxy/main.go:338-411 | Which writes each step hands to goroutines and which one has landed |
| InstanceHistory.LeavesExactly | proxy/main.go:225-229 | In every run an instance leaves its bucket if and only if a pass finds it idle or a DELETE under posted names comes from the client of its last accepted POST |
| InstanceHistory.BucketIsExact | proxy/main.go:218-425 | In every run the bucket has an instance exactly while it was posted and neither has happened since, and then with the record of its last POST |
| CacheRefinement.SettleIsLastWrite | proxy/main.go:336-338 | Landing all outstanding writes gives each instance the effect of the last write issued for it |
| CacheRefinement.LandingKeepsSettledExactly | proxy/main.go:338-338 | Landing one write keeps the settled index if and only if the write does not overtake an older one of the same instance that says otherwise |
| CacheRefinement.InOrderDoesNotOvertake | proxy/main.go:338-338 | Landing the oldest write of an instance never overtakes, so writes that land in order keep the settled index |
| CacheRefinement.PostAgrees | proxy/main.go:336-384 | After an accepted POST the settled index and the bucket agree on its instance, whatever was the case before |
| CacheRefinement.DeleteKeepsAgreement | proxy/main.go:404-411 | A DELETE keeps agreement, and does not repair an entry only the flat index has |
| CacheRefinement.ReapAgreesExactly | proxy/main.go:222-236 | A reaper pass keeps agreement on an instance if and only if it does not strike it with a write outstanding |
| CacheRefinement.ReapSkipsFlatOnly | proxy/main.go:227-229 | The reaper never takes out an entry that only the flat index has |
| CacheRefinement.LandingAgreesExactly | proxy/main.go:338-338 | An in-order landing neither makes nor breaks agreement |
| CacheRefinement.RunKeepsAccount | proxy/main.go:218-425 | In every run with in-order landings and a fixed revision, an instance is only ever in its own bucket, and agreement fails exactly while it is spoiled, with its bucket entry gone |
| CacheRefinement.OrderlyAgreementIsExact | proxy/main.go:218-425 | In such a run the settled index and the bucket agree on the instance if and only if the reaper has not struck it with a write outstanding since its last POST |
| CacheRefinement.SettledIndexIsUnionOfBuckets | proxy/main.go:218-425 | Without such strikes, landing the outstanding writes gives exactly the union of all buckets, with no instance in two of them |
| CacheRuns.StepAgreesExactly | proxy/main.go:218-425 | Out of a state that agrees on an instance, a handler, landing or pass keeps agreement if and only if it neither strikes it with a write outstanding nor lands a write of it past an older one that says otherwise |
| CacheRuns.AgreementIsExact | proxy/main.go:218-425 | For every run in every landing order whose POSTs of the instance name one revision, from any state that agrees on: settled index and bucket agree on it after every step if and only if no step does either |
| CacheRuns.UnionIsExact | proxy/main.go:218-425 | For every run in which an instance ID fixes its revision: the settled index is the union of all buckets after every step if and only if no step does either to any instance |
| CacheRefinement.UnreachableStays | proxy/main.go:227-229 | An entry only the flat index has stays there through every run that does not name the instance |
| CacheRefinement.OvertakenPostIsStranded | proxy/main.go:336-338 | A DELETE's write that lands before the POST's leaves a flat entry that no such run ever removes |
| CacheRefinement.EarlyStrikeIsStranded | proxy/main.go:225-229 | A pass that gets in before a ping's write has landed takes a running instance out of its bucket and strands its flat entry |
| ReaperTiming.AliveIsNotStruck | proxy/main.go:225-226 | The reaper does not strike an instance whose pings, landed or on their way, leave no hole wider than the gap |
| ReaperTiming.RunKeepsAlive | proxy/main.go:218-388 | Every run of an instance that keeps pinging keeps that queue without holes and the last ping's record in the bucket |
| ReaperTiming.PingingInstanceIsNeverReaped | proxy/main.go:87-88 | An instance that pings at gaps of at most P, with flat writes landing within D and P + D at most the timeout, is struck by no pass, and its bucket always has its last ping |
| ReaperTiming.TheTickThatReaps | proxy/main.go:225-230 | A pass the timeout after an instance's last request leaves it in no bucket, and out of the flat index exactly if it is not spoiled |
| ReaperTiming.SomeTickInWindow | proxy/main.go:219-221 | With passes at most an interval apart, one falls into every window of that length |
| ReaperTiming.SilentInstanceIsReaped | proxy/main.go:218-239 | An instance silent since time L is out of its bucket by L + timeout + interval, and out of the flat index too if and only if it is not spoiled |
| PingSpacing.PunctualIsNotStruckEarly | proxy/main.go:225-229 | With pings at most P apart, writes landing within D and P + D within the timeout, the reaper strikes no instance with a write outstanding |
| PingSpacing.RunStaysPunctual | proxy/main.go:218-425 | In every such run the writes of an instance on their way have no gap wider than P, and it is not spoiled, whatever the times of the reaper and of DELETEs |
| PingSpacing.PunctualInstanceAgrees | proxy/main.go:336-384 | So the settled index and the bucket agree on it |
| PingSpacing.PunctualRunsSettleToTheUnion | proxy/main.go:218-425 | If all instances ping so, landing the outstanding writes gives exactly the union of all buckets |
| PingSpacing.PunctualInstanceIsGone | proxy/main.go:218-239 | Such an instance, silent since time L, is out of bucket and flat index by L + timeout + interval |
| PingSpacing.SafeTimeoutsExactly | proxy/main.go:87-88 | For given D and P, no instance is ever spoiled if and only if P + D is at most the timeout |
| Listings.FiltersExactly | proxy/main.go:534-600 | The three filtering listings show exactly the flat records that name what was asked for |
| Listings.ScansExactly | proxy/main.go:625-632 | The listing for a revision shows exactly the records of its bucket |
| Listings.AnswersExactly | proxy/main.go:521-642 | In every run each listing is a 400 exactly for an empty name, and a 404 exactly if one of its names was never posted at its level |
| Listings.QuietRunsAreInStep | proxy/main.go:338-338 | Runs with in-order landings and no early strikes reach, whenever no write is outstanding, a state whose flat index is the union of the buckets |
| Listings.RevisionListingIsExact | proxy/main.go:611-642 | The bucket scan equals the flat index filtered on all four names if and only if the revision's instances belong to the requested project, region and service |
| Listings.ProjectIsUnionOfRegionsExactly | proxy/main.go:521-575 | A project's listing is the disjoint union of its regions' listings if and only if no listed record has the empty region |
| Listings.RegionIsUnionOfServicesExactly | proxy/main.go:547-609 | A region's listing is the disjoint union of its services' listings if and only if no listed record has the empty service |
| Listings.ServiceIsUnionOfRevisionsExactly | proxy/main.go:577-642 | A service's listing is the disjoint union of the listings of the revisions that belong to it if and only if each listed record's revision has a name and belongs to it |
| Listings.RecordsWerePosted | proxy/main.go:326-384 | In every run each record in a bucket is that of an accepted POST |
| Listings.ServiceListingsOfRuns | proxy/main.go:577-642 | In every run whose POSTs of a revision agree on project, region and service, the union holds if and only if the listing has no nameless revision |
| Listings.NamelessRegionHasNoListing | proxy/main.go:551-554 | An instance posted under the empty region is in its project's listing and in no region's |
| Listings.MixedPathShowsForeignInstance | proxy/main.go:622-635 | After two POSTs, a path with the first one's service and the second one's revision lists the second one's instance |
| RegistryHeap.Registry.constructor | proxy/main.go:96-102 | The five maps start out empty, each upper map bound to the one map of the next level |
| RegistryHeap.Registry.GetOrComputeBucket | proxy/main.go:343-350 | A loaded bucket is returned untouched; otherwise a fresh one with the record is stored; no other bucket changes |
| RegistryHeap.Registry.GetOrComputeRevisions | proxy/main.go:349-357 | Computing stores the one revision map and places the record; loading changes nothing |
| RegistryHeap.Registry.GetOrComputeServices | proxy/main.go:356-366 | Computing stores the one service map and places the record; loading changes nothing |
| RegistryHeap.Registry.GetOrComputeRegions | proxy/main.go:365-376 | Computing stores the one region map and places the record; loading changes nothing |
| RegistryHeap.Registry.AddInstance | proxy/main.go:310-388 | For every combination of loaded and computed levels, POST does exactly Register, keeps the shared maps shared, the buckets apart and every existing bucket in place |
| RegistryHeap.Registry.FindBucket | proxy/main.go:404-407 | The walk ends in a bucket exactly if all four names are known, and it is the one the reaper reaches through the revision map |
| RegistryHeap.Registry.RemoveInstance | proxy/main.go:390-425 | DELETE does exactly Remove: 400 without a client ID, 202 exactly if the walk ends at a record with the client's own tunnel, 404 otherwise; no bucket moves |
| RegistryHeap.Registry.GetInstanceByID | proxy/main.go:427-454 | 400 for the empty name, 404 for one the flat index does not have, otherwise its record |
| RegistryHeap.Registry.GetInstance | proxy/main.go:427-479 | The walk decides whether there is an answer, the flat index what it is; an empty name gets 400 or no status at all |
| RegistryHeap.Registry.LandPending | proxy/main.go:338-338 | The goroutine behind any outstanding write does exactly its landing step |
| RegistryHeap.Registry.VisitNext | proxy/main.go:223-236 | One more visit extends the pass by exactly its entry |
| RegistryHeap.Registry.VisitIdle | proxy/main.go:224-236 | The visit to one flat entry takes out the entry and its bucket record exactly if both are there and it is idle |
| RegistryHeap.ReapedOneMore | proxy/main.go:223-236 | A pass that has visited some entries in any order goes on as if no earlier visit had happened |
| RegistryHeap.ReapedEverything | proxy/main.go:223-236 | Visiting every entry is the reaper's whole step |
| RegistryHeap.Registry.ReapIdle | proxy/main.go:218-239 | One tick, visiting in any order and deleting as it goes, does exactly ReapAll and counts what it took out |
| RegistryHeap.Registry.CollectFlat | proxy/main.go:534-542 | The ForEach loop over the flat index collects exactly the filtered records, each once |
| RegistryHeap.Registry.CollectBucket | proxy/main.go:627-632 | The ForEach loop over a bucket collects exactly its records, each once |
| RegistryHeap.Registry.GetProjectIngress | proxy/main.go:521-545 | Status and records are those of ProjectListing, each record once |
| RegistryHeap.Registry.GetRegionIngress | proxy/main.go:547-575 | Status and records are those of RegionListing, each record once |
| RegistryHeap.Registry.GetServiceIngress | proxy/main.go:577-609 | Status and records are those of ServiceListing, each record once |
| RegistryHeap.Registry.GetRevisionIngress | proxy/main.go:611-642 | Status and records are those of RevisionListing, each record once |
| SessionTables.StepActs | webssh/webssh/worker.py:18-34 | What every event of the session machine does to tables, claims and closings is one of six small acts |
| SessionTables.EveryRunIsSound | webssh/webssh/handler.py:564-586 | In every run, overlapping POSTs included, entries stay in tables of their own address, say None exactly for claimed workers, no worker is in two tables, and tables in clients hold live workers only |
| SessionTables.ReferencesResolve | webssh/webssh/handler.py:527-552 | In every run the table an address has, and every worker in it, exists |
| SessionTables.SerialRunsAreOrderly | webssh/webssh/worker.py:18-27 | While POSTs of one address do not overlap, after every event the keys of clients[ip] are exactly its live workers, no address maps to an empty table, clear_worker's assertion has not failed, and every closed worker's entry was removed once |
| SessionTables.FinishKeepsBijectionExactly | webssh/webssh/handler.py:547-550 | A POST that comes back keeps the tables in order if and only if its address has no table by now or still has the captured one |
| SessionOverlap.StrandedForGood | webssh/webssh/worker.py:18-27 | A live worker that the table of its address does not hold stays so under every event until it closes, which fails the assertion once |
| SessionOverlap.UnguardedStrands | webssh/webssh/handler.py:547-550 | Out of a state in order, a POST that finds another table than it captured strands a live worker |
| SessionOverlap.RunsBreakExactly | webssh/webssh/handler.py:547-552 | For every run, overlapping POSTs included: the tables match the live workers and no assertion failed if and only if every POST that came back met the guard, and otherwise the assertion failed or a live worker is stranded |
| SessionOverlap.ClearWorkerFailsExactly | webssh/webssh/worker.py:18-22 | The assertion has not failed and will not fail for whichever worker closes next if and only if every POST that came back found its address without a table or with the captured one |
| SessionOverlap.SerialRunsAreGuarded | webssh/webssh/handler.py:527-552 | POSTs that do not overlap always meet that guard |
| SessionOverlap.OverlapBreaksClear | webssh/webssh/worker.py:18-34 | In the run of two overlapping POSTs of a new address and the first worker's recycle timer, the assertion fails |
| SessionText.ChannelGetsTheTexts | webssh/webssh/worker.py:93-116 | In every run, for every worker: the characters the channel has accepted followed by those that wait are the texts of the messages that reached it alive, read off the events, in the order they came |
| SessionText.NothingWaits | webssh/webssh/handler.py:618-621 | Once nothing waits the channel has accepted exactly those texts |
| SessionSteps.EndsExactly | webssh/webssh/worker.py:30-134 | A live worker is gone after an event if and only if it is its recycle timer while unclaimed, the end of a claimed worker, or an attempt with output waiting that raises on a closed or reset channel |
| SessionSteps.TimersExactly | webssh/webssh/worker.py:66-116 | One retry timer goes with each that fires and one comes with each attempt that fails for now or leaves output waiting; nothing else touches them |
| SessionSteps.TimersAreKicked | webssh/webssh/worker.py:66-71 | A worker never has more retry timers on their way than it was sent messages or found ready |
| SessionAnswers.PostIsRefusedExactly | webssh/webssh/handler.py:527-530 | In every world a POST is refused if and only if the table its address has is not empty and has maxconn entries or more, whatever other addresses have |
| SessionAnswers.GuardedTableIsLive | webssh/webssh/handler.py:547-550 | While the POSTs of an address met the guard, its table has exactly its live workers |
| SessionAnswers.GuardedPostIsRefusedExactly | webssh/webssh/handler.py:527-530 | In such runs the next POST is refused if and only if the address has live workers, and maxconn of them or more |
| SessionAnswers.ClaimsExactly | webssh/webssh/handler.py:568-578 | In every run a websocket gets the worker it asks for if and only if that is alive, unclaimed, of the same address and not stranded in a replaced table |
| SessionAnswers.GuardedClaimsExactly | webssh/webssh/handler.py:568-586 | While the POSTs of the address met the guard, a claim moves a worker from offered to claimed if and only if it is offered to that address, however many there are |
| SessionLife.OnWriteKeepsStream | webssh/webssh/worker.py:93-116 | Whatever chan.send does, accepted characters followed by the waiting ones remain the queued ones |
| SessionLife.OnWriteWakes | webssh/webssh/worker.py:66-116 | After on_write output waits exactly in WRITE mode with a retry timer on its way, or the worker is about to close |
| SessionLife.EveryRunIsHealthy | webssh/webssh/worker.py:62-134 | In every run, for every worker: the stream is conserved, no wake-up is lost, channel and SSH client are closed once, the loop handler is removed once exactly if it was added, update_handler never runs on a closed worker, and no unclaimed worker outlives its recycle timer |
| SessionLife.StagesOnlyAdvance | webssh/webssh/handler.py:564-586 | In every run a worker only moves from offered to claimed to closed or from offered to closed, so at most one websocket claims it |
| SessionOverlap.SlotShowsStage | webssh/webssh/handler.py:568-577 | While every POST that came back met the guard, so in particular while POSTs of one address do not overlap, a worker's slot is the worker while offered, None while claimed, and absent once closed |
| SessionLife.RecycleSparesTheClaimed | webssh/webssh/worker.py:30-34 | The recycle timer leaves a claimed worker and all tables alone, and closes any other |
| SessionLife.DrainsByAttempts | webssh/webssh/worker.py:93-116 | Each attempt that gets a character through takes at least one off the buffer, whatever idle attempts, other workers and the claimed worker's own recycle timer do meanwhile |
| SessionLife.BufferDrains | webssh/webssh/worker.py:93-116 | After as many such attempts as the buffer has characters it is empty, the worker is in READ mode and the channel has accepted all that was queued |
| SessionLife.NoLostWakeUp | webssh/webssh/worker.py:66-71 | As long as output waits, a retry timer can fire, with any outcome the channel has |
| SessionCap.RunWithinLimit | webssh/webssh/handler.py:527-552 | In every run with at most k POSTs of an address in flight together, whatever other addresses do, the entries of each of its tables plus the POSTs holding it stay within the limit |
| SessionCap.TablesAreCapped | webssh/webssh/handler.py:527-552 | With at most k POSTs of an address in flight together, none of its tables, dropped and re-inserted ones included, holds more than maxconn - 1 + k entries, or 1 where maxconn is 1 or less |
| SessionCap.LimitIsReached | webssh/webssh/handler.py:528-529 | For every maxconn and every k of at least 1 there is a run that fills a table of the address to the limit |
| SessionCount.GuardedRunInOrder | webssh/webssh/handler.py:547-552 | If every POST of an address that came back found it without a table or with the captured one, all entries of its tables are in the table it has and all its live workers among them, whatever other addresses do |
| SessionCount.GuardedWorkersAreCapped | webssh/webssh/handler.py:527-552 | In such a run with at most k POSTs of the address in flight together, the limit also bounds its live workers |
| SessionCount.LiveWorkersAreNotCapped | webssh/webssh/handler.py:528-530 | For every maxconn and every n there is a run, with never more than two POSTs of the address in flight, that leaves n workers of it alive and claimed |
| SessionCount.OneAtATimeIsGuarded | webssh/webssh/handler.py:527-552 | POSTs of an address that do not overlap always meet the guard, whatever other addresses do |
| SessionCount.LiveWorkersAreCappedExactly | webssh/webssh/handler.py:527-552 | With at most k POSTs of an address in flight together, some bound on its live workers holds in all runs if and only if k is at most 1, and then the limit is one |
| SessionHeap.Worker.SetHandler | webssh/webssh/worker.py:62-64 | The first handler stays; the worker is claimed and added to the loop |
| SessionHeap.Worker.UpdateHandler | webssh/webssh/worker.py:66-71 | The mode becomes the one asked for, and WRITE starts one more retry timer |
| SessionHeap.Worker.OnWrite | webssh/webssh/worker.py:93-116 | One attempt to send does exactly the machine's on_write, and asks to close exactly if sending raised on a closed or reset channel |
| SessionHeap.Sessions.PostBegin | webssh/webssh/handler.py:527-539 | Answers 429 exactly if the table the address has is not empty and has maxconn entries or more; otherwise captures that table or a new one |
| SessionHeap.Sessions.PostDone | webssh/webssh/handler.py:546-552 | Puts the captured table into clients if it is empty by now, and the new worker into it, and changes nothing else |
| SessionHeap.Sessions.Open | webssh/webssh/handler.py:564-586 | Claims the worker exactly if the table of its own address has it and has it free, leaves None in its slot, and binds websocket and worker |
| SessionHeap.Sessions.Hangup | webssh/webssh/worker.py:118-131 | A close re-entered through on_close changes nothing; handler, channel and SSH client are each given up once |
| SessionHeap.Sessions.Close | webssh/webssh/worker.py:118-134 | On a closed worker nothing changes; on a live one exactly the machine's close happens, re-entered or not |
| SessionHeap.Sessions.ClearWorker | webssh/webssh/worker.py:18-27 | Takes out the entry, and the address with its last entry, or counts a failed assertion |
| SessionHeap.Sessions.PopSlot | webssh/webssh/worker.py:23-26 | The entry leaves its table, and the address leaves clients exactly if that emptied it |
| SessionHeap.Sessions.RecycleWorker | webssh/webssh/worker.py:30-34 | Closes the worker exactly if no websocket has claimed it |
| SessionHeap.Sessions.OnWrite | webssh/webssh/worker.py:93-108 | Sends, and closes the worker if the attempt failed for good |
| SessionHeap.Sessions.RetryTimer | webssh/webssh/worker.py:70-71 | A retry timer makes one more attempt, also after the worker was closed |
| SessionHeap.Sessions.OnMessage | webssh/webssh/handler.py:588-621 | Text for a live worker comes after all it was sent before, and one attempt is made; for a closed one nothing changes |
| SessionHeap.Sessions.OnClose | webssh/webssh/handler.py:623-630 | Closes the worker the websocket claimed, if any, and changes nothing if it is closed already |
| SessionHeap.Sessions.PostFailed | webssh/webssh/handler.py:541-545 | Only the waiting POST goes |
| SessionHeap.Sessions.LoseChannel | webssh/webssh/worker.py:79-80 | Only the channel of this worker is closed |
| SessionLoop.EventLoop.PostBegin | webssh/webssh/handler.py:527-539 | Keeps memory where the machine is, one PostBegin on; 429 exactly if the address has live workers and maxconn of them or more, while its POSTs met the guard |
| SessionLoop.EventLoop.PostDone | webssh/webssh/handler.py:546-552 | The same for PostDone, with a new worker |
| SessionLoop.EventLoop.Open | webssh/webssh/handler.py:564-586 | The same for a claim, which succeeds exactly for a worker offered to the address while its POSTs met the guard; worker and websocket then refer to each other |
| SessionLoop.EventLoop.RecycleTimer | webssh/webssh/worker.py:30-34 | The same for the recycle timer |
| SessionLoop.EventLoop.Shut | webssh/webssh/worker.py:118-134 | The same for every way a claimed worker is closed |
| SessionLoop.EventLoop.Message | webssh/webssh/handler.py:588-621 | The same for text from the browser |
| SessionLoop.EventLoop.RetryTimer | webssh/webssh/worker.py:70-71 | The same for a retry timer |
| SessionLoop.EventLoop.Writable | webssh/webssh/worker.py:52-53 | The same for a channel that can be written to |
| SessionLoop.EventLoop.WorkersKeepTheirPromises | webssh/webssh/worker.py:62-134 | So in memory, between any two events, every worker object has accepted and waiting characters that are exactly the texts sent to it, its wake-up pending and its teardown done exactly once |
| SessionLoop.EventLoop.AnswersKeepTheirPromises | webssh/webssh/handler.py:527-586 | And while the POSTs of an address met the guard, who is refused and who may claim is decided by its worker objects: how many are alive, and which have no handler |
| SessionLoop.EventLoop.TablesKeepTheirPromises | webssh/webssh/handler.py:527-552 | And each table in memory stays within the limit for the POSTs of its own address, and no assertion has failed while POSTs met the guard |
| HostKeyPolicy.Client.constructor | webssh/webssh/policy.py:43-44 | The file starts out as the entries in memory |
| HostKeyPolicy.Client.Find | webssh/webssh/policy.py:59-63 | The first entry of the right kind decides, and it is known whether any entry names the host |
| HostKeyPolicy.Client.MissingHostKey | webssh/webssh/policy.py:58-83 | The critical section run by one thread: result, memory and file, also when the write to the file raises |
| HostKeyPolicy.ThreadsAreSerialised | webssh/webssh/policy.py:56-83 | However threads interleave, the store is what the finished sections make of it one by one, plus the progress of at most one |
| HostKeyPolicy.LookupsExactly | webssh/webssh/policy.py:59-63 | A store has no entry for a host, or no key of a kind, exactly if no entry has, and the key that counts is that of the first entry that has |
| HostKeyPolicy.SectionForSystemHosts | webssh/webssh/policy.py:58-83 | Hosts the system knows: its first key of the kind decides, and without one any key goes in, at the end of memory and of the file if the write goes through |
| HostKeyPolicy.SectionForOtherHosts | webssh/webssh/policy.py:58-83 | Other hosts: the user's first key of the kind decides, and without one the key goes in |
| HostKeyPolicy.OneKeyExactly | webssh/webssh/policy.py:58-70 | A section keeps one key per host and kind if and only if it does not add beside a key hidden by the system's entries |
| HostKeyPolicy.ConflictIsRefusedExactly | webssh/webssh/policy.py:59-67 | A key that differs from the user's stored one is refused if and only if the system's keys do not name the host, or have another key of that kind |
| HostKeyPolicy.ShadowedKeyIsAccepted | webssh/webssh/policy.py:59-65 | A changed key of a host the system knows by another kind of key is accepted and stored beside the old one |
| HostKeyPolicy.StoreOnlyGrows | webssh/webssh/policy.py:76-83 | Entries are only ever appended, in memory and file |
| HostKeyPolicy.OneKeyForGood | webssh/webssh/policy.py:58-83 | Unless hidden, a host and kind keeps at most one key for good, and the one it has never changes |
| HostKeyPolicy.TrustOnFirstUse | webssh/webssh/policy.py:52-83 | Under any interleaving a host unknown to the system has at most one key per kind, and once it has one every later section accepts that key and refuses all others |
| HostKeyPolicy.ConflictsAlwaysRaise | webssh/webssh/policy.py:66-71 | In every interleaving a thread that came back was refused if and only if the store holds another key for its host and kind, and that stays so |
| HostKeyPolicy.FailedWriteLags | webssh/webssh/policy.py:76-83 | In the run of one new host whose write raises, its key is in memory and not in the file |
| HostKeyPolicy.StoredKeysNeverChange | webssh/webssh/policy.py:58-83 | From any moment of any interleaving on, a host and kind that has a key keeps exactly the keys it has, unless hidden |
| HostKeyPolicy.StoreIsStartPlusAdditions | webssh/webssh/policy.py:76-83 | Memory is what it was plus every addition, the file what it was plus every one that was saved, in the order of the sections |
| HostKeyPolicy.FileIsMemoryExactly | webssh/webssh/policy.py:43-44 | While no thread holds the lock, memory is what was loaded at start-up plus all additions, and the file read back gives the same if and only if no thread came back with the exception of its write |
| KeyHeader.HeaderExactly | webssh/webssh/handler.py:138-149 | A line is a recognised header exactly if it is the BEGIN frame around RSA, DSA, EC or OPENSSH with any spaces before and after it, and it then names RSA, DSS, ECDSA or Ed25519 |
| KeyHeader.SpacesExactly | webssh/webssh/handler.py:138-138 | Which characters strip() removes, by number |
| KeyHeader.StripSplits | webssh/webssh/handler.py:138-138 | What is stripped off is all space at both ends, and what is left has none at its ends |
| KeyHeader.StripFinds | webssh/webssh/handler.py:138-138 | A text without spaces at its ends is found between any spaces |
| KeyHeader.OrdinaryHeader | webssh/webssh/handler.py:137-150 | A header on a line of its own is found, whatever ends the line |
| KeyHeader.CandidatesExactly | webssh/webssh/handler.py:178-185 | OPENSSH may hold Ed25519, RSA, ECDSA or DSS, tried in that order; any other header names its one kind |
| KeyHeader.FirstNotRefusedDecides | webssh/webssh/handler.py:153-194 | The result is the key, or the demand for a passphrase, of the first kind that does not refuse, and no parser runs after it |
| KeyHeader.AllRefuse | webssh/webssh/handler.py:190-194 | When all refuse all have run, and the message mentions the passphrase exactly if one was given |
| KeyHeader.FrameOfFour | webssh/webssh/handler.py:139-146 | Four parts between the markers leave room for exactly one tag |
| KeyHeader.FirstHeaderIsUnique | webssh/webssh/handler.py:137-151 | A text has at most one first header line |
| KeyHeader.PrivateKey.Create | webssh/webssh/handler.py:123-133 | A key text is refused exactly if it is longer than 16384, and otherwise read from its start |
| KeyHeader.PrivateKey.ParseName | webssh/webssh/handler.py:135-151 | Position minus returned length is the start of the first line that is a header, or no line is one |
| KeyHeader.PrivateKey.GetSpecificPkey | webssh/webssh/handler.py:153-169 | The parser reads from the given offset wherever the stream was left, and only a refusal is remembered |
| KeyHeader.PrivateKey.TryAll | webssh/webssh/handler.py:177-194 | The kinds the header allows are tried in order from the same offset until one decides |
| KeyHeader.PrivateKey.TryOthers | webssh/webssh/handler.py:181-185 | The other kinds are tried in order from the same offset until one decides |
| KeyHeader.PrivateKey.GetPkeyObj | webssh/webssh/handler.py:171-194 | Invalid exactly if no line is a header; otherwise every parser starts at the first header, in the allowed order, and the first that does not refuse decides |
| PrimaryDomain.EndsInLastTwo | webssh/webssh/utils.py:93-121 | A name with two labels or more is its last two, with nothing or text ending in a dot before them |
| PrimaryDomain.ReadBoth | webssh/webssh/utils.py:100-110 | A mismatch, and the second common dot, settle the comparison |
| PrimaryDomain.ScanUsedUp | webssh/webssh/utils.py:114-121 | Once a name is used up, equal lengths or one dot and a dot in front decide exactly |
| PrimaryDomain.IsSamePrimaryDomain | webssh/webssh/utils.py:93-121 | For all strings the backward scan holds if and only if the names are equal or both have two labels or more and the last two agree |
| PrimaryDomain.SamePrimaryIsEquivalence | webssh/webssh/utils.py:93-121 | Reflexive, symmetric and transitive |
| Backspaces.ReplaceKeepsPlay | webssh/webssh/static/js/main.js:492-494 | Deleting the leftmost match does not change what the stack machine makes of the text |
| Backspaces.ReplaceMakesProgressExactly | webssh/webssh/static/js/main.js:494-494 | An iteration shortens the text by two units exactly if the pattern matches anywhere |
| Backspaces.TerminatorsExactly | webssh/webssh/static/js/main.js:492-492 | A backspace, unit 8, takes the unit before it with it unless that is one of the four line terminators |
| Backspaces.SettlesExactly | webssh/webssh/static/js/main.js:491-495 | The line-by-line condition holds exactly if the stack machine leaves no backspace |
| Backspaces.LoopEndsExactly | webssh/webssh/static/js/main.js:493-495 | The loop ends if and only if no line ends up with a backspace that has nothing to erase |
| Backspaces.OrdinaryTranscriptsSettle | webssh/webssh/static/js/main.js:491-495 | It ends for every transcript whose backspaces each have an un-erased unit before them on their line |
| Backspaces.RewriteBackspaces | webssh/webssh/static/js/main.js:491-495 | Where it ends, the text is the stack machine's and has no backspace |
| Backspaces.LoneBackspaceLoops | webssh/webssh/static/js/main.js:493-494 | A lone backspace is repeated for ever |

## Left out

- Routing, headers, JSON encoding and token checks of the proxy: plumbing around the registry.
- Interleavings inside one registry handler or one reaper pass, and the internals of the concurrent maps: each handler and pass is one step, and only the `go` writes come later.
- RegistryHeap.Registry.GetInstance: answers with the status and the record; the response headers made from the record, the visitor header and a failing encoder of the body are not modelled.
- Instance records are values: the program shares one immutable record between bucket and flat index.
- SessionHeap.Sessions.PostBegin: a dictionary of workers is an entry of a store under a number, not an object of its own; two references to one dictionary are two uses of one number. The checks between the limit and the `yield` that only refuse a request are left out.
- SessionHeap.Sessions.OnMessage: messages that are not JSON objects, window sizes and data that is empty are left out, as they never reach the buffer.
- SessionHeap.Sessions.Close: asks that the worker's websocket refers back to it. SessionLoop.EventLoop.Open establishes that and no other method may change either reference, but it is asked of the callers rather than kept as an invariant of the loop. What the reason texts say is not modelled.
- Inbound data: on_read's forwarding to the browser; its two ways to close a worker are the event Shut.
- KeyHeader.PrivateKey.ParseName: for an empty key text the source fails with an unbound loop variable; the model asks for a non-empty text.
- KeyHeader.PrivateKey.GetPkeyObj: decrypting and parsing keys is an oracle that accepts, asks for a passphrase or refuses.
- Backspaces.RewriteBackspaces: asks for a transcript on which the loop ends; LoopEndsExactly covers all others.
- HostKeyPolicy.Client.MissingHostKey: the file holds entries, not their text, and hashed host names are not modelled.
- The SSH login itself, its authentication steps, host and port validation, origin checks and the reading of an origin from a URL.
- The rest of main.js, the templates, YAML settings, access lists and everything about deployment.
