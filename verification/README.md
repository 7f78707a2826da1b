# A verified model of chuzz's concurrent protocols and codecs

chuzz is a browser. Its hard code is a set of small protocols, each nearly free of I/O, and a few codecs. This
project models them in Dafny and proves what they promise over every input and every interleaving.

| module | models |
|---|---|
| `Wrappers` | values that may be missing, results that may be errors |
| `Utf8Syntax`, `RowStore` | the cookie jar cut into table rows, rewritten and trimmed on every snapshot |
| `CookiePersistence`, `CookieGuarantees`, `CookieWriter` | mutators, flushers and the single writer around a one-place slot and a bounded ring |
| `SessionHistory` | a tab's history vector as a back and a forward stack |
| `TabLifecycle`, `TabGuarantees`, `TabObject`, `TabDiversion`, `TabVacancy`, `TabTimer`, `TabEffects` | loading, sleeping and waking one tab, fenced by generations, epochs and teardown receipts |
| `Egress`, `RelayObject` | relays that share one byte budget, and the connection leases |
| `RequestChannel` | the document request ring with its open flags and notification |
| `Utf8Codec`, `Utf8Damage`, `Base64`, `Escape`, `CodecTexts` | the web API shim's codecs and the second base64 encoder |
| `ObserverGeometry`, `ObserverMeaning`, `ObserverScheduler`, `ObserverEffects`, `ObserverObject` | IntersectionObserver |
| `DependencyWalk`, `PackageOrder`, `DependencyAudit` | the breadth-first dependency walk and the audit built on it |
| `LanguageTags`, `LanguageCase` | the BCP 47 canonicaliser |

How a protocol is modelled: each lock region, compare-exchange, notification and document-thread message is one
atomic step of a relation over a state; a run is any finite sequence of steps from the initial state; the main
results are about every run. Where the source changes fields in place there is also a class, and its methods are
proved to have the effect of a step or to form a run of steps.

Five things the proofs turned up in the code:

- Going Back or Forward to an entry that is neither GET nor HEAD, while a discarded tab's reload is in flight,
  moves `current` but neither aborts nor supersedes the load. The load then mounts over, and overwrites the URL of,
  the wrong entry. `TabDiversion.WrongEntryMounted` is such a run; `TabGuarantees.AlignedIff` says that this is
  exactly the step that breaks the property.
- `Released` puts a tab to sleep from every phase but `RestoreFailed`, without a look at what is mounted. After a
  failed reload whose page is slow to go, a navigation can mount its page first, and the late receipt then puts the tab
  to sleep with that page mounted. `TabVacancy.MountedSleeper` is such a run; `TabVacancy.VacantIff` says that this is
  exactly the step that breaks the property. The barrier of a committed sleep is not affected
  (`TabGuarantees.DiscardBarrier`).
- The paint that ends a wake makes the tab live without arming its sleep timer. A tab woken out of sight is then live,
  not visible and without a timer until it is shown and hidden, reloaded or navigated. `TabTimer.LiveWithoutTimer` is
  such a run; `TabTimer.ArmedIff` says that this is exactly the step that breaks the property.
- A stored text that does not parse gives an empty jar and, against the comment there, is not rewritten
  (cookie_store.rs, `open_table`); a fresh table likewise stays empty. A flush before the first mutation is then
  answered Ok with the table reading otherwise than the jar (`CookieGuarantees.TornTableFlushed`). The barrier says
  exactly when the two agree (`CookieGuarantees.FlushBarrier`).
- `receive` and `try_recv` pop without the lock and look at the open flag afterwards, so both can answer
  `Disconnected` with a request queued. `RequestChannel.DisconnectedWithRequestQueued` is such a run for each;
  `RequestChannel.DisconnectedIff` says that this happens exactly when a request is pushed between the two, and
  never when the sender had gone before the call.

`dafny verify dfyconfig.toml` checks the whole project.

## Model

| member | source | states |
|---|---|---|
| `RowStore.CutPoint` | apps/chuzz/src/cookie_store.rs:731-735 | the inner loop stops within three bytes of the 8192-byte limit, at a place where both halves are whole UTF-8 characters |
| `RowStore.SnapshotSlices` | apps/chuzz/src/cookie_store.rs:728-742 | the slices join to the snapshot; every slice is whole characters and at most 8192 bytes; every slice but the last has at least 8189 bytes |
| `RowStore.ReadSlices` | apps/chuzz/src/cookie_store.rs:744-752 | reading from any row on returns exactly the slices stored from there, when the row behind the last slice is missing |
| `RowStore.AppliedReadsBack` | apps/chuzz/src/cookie_store.rs:744-780 | for every prior table, holes included, an applied snapshot reads back as itself, and contiguous keys stay contiguous |
| `RowStore.TrimmedIsApplied` | apps/chuzz/src/cookie_store.rs:769-779 | deleting from the new end up to the first missing row removes exactly the old contiguous tail |
| `RowStore.Table.ReadDurableSnapshot` | apps/chuzz/src/cookie_store.rs:744-752 | the loop returns the rows 0, 1, ... joined up to the first missing one |
| `RowStore.Table.ApplyDurableSnapshot` | apps/chuzz/src/cookie_store.rs:754-780 | fails exactly when one of its table operations fails, and then stops; on success the table reads back as the snapshot, on failure it is the prior table with a prefix of the upserts done, or all of them and a prefix of the deletes |
| `Utf8Syntax.BoundarySplits` | apps/chuzz/src/cookie_store.rs:731-736 | a character boundary splits a well-formed text into two well-formed texts |
| `Utf8Syntax.BoundaryIsNear` | apps/chuzz/src/cookie_store.rs:731-735 | a well-formed text has a character boundary at most three bytes before any position |
| `CookiePersistence.PendingPersistence.Enqueue` | apps/chuzz/src/cookie_store.rs:91-110 | refused when closed; otherwise the slot holds the new snapshot under the next generation and nothing else changes |
| `CookiePersistence.PendingPersistence.Request` | apps/chuzz/src/cookie_store.rs:112-140 | refused when closed or when the ring is full, leaving everything as it was; otherwise the command takes the slot into the ring, and a close command closes |
| `CookiePersistence.PendingPersistence.DropHandle` | apps/chuzz/src/cookie_store.rs:161-170 | dropping the handle closes and loses nothing |
| `CookiePersistence.PendingPersistence.Pick` | apps/chuzz/src/cookie_store.rs:208-230 | the choice and what it takes: ring before slot, slot when closed or due, close, debounce, wait |
| `CookiePersistence.ChainPublish` | apps/chuzz/src/cookie_store.rs:91-110 | a publication extends the generation chain from table through ring to slot |
| `CookiePersistence.ChainRequest` | apps/chuzz/src/cookie_store.rs:112-140 | a request moves the slot to the end of the ring without breaking the chain, and promises its requester the last published text |
| `CookiePersistence.OrderedProducer` | apps/chuzz/src/cookie_store.rs:91-170 | mutators and requesters keep table, ring and slot in publication order, each command promising the text the table will then hold |
| `CookiePersistence.OrderedWriter` | apps/chuzz/src/cookie_store.rs:207-283 | so does the writer, whatever it picks and whenever producers run between its pick and its write |
| `CookiePersistence.StoresNext` | apps/chuzz/src/cookie_store.rs:754-798 | while no write has failed, the table reads back as the snapshot last written |
| `CookiePersistence.QueuedWriter` | apps/chuzz/src/cookie_store.rs:208-261 | commands are answered first in, first out, each once |
| `CookiePersistence.ClosesLastNext` | apps/chuzz/src/cookie_store.rs:112-170 | nothing is accepted or published behind a close, and a writer bound to stop has nothing left to do |
| `CookiePersistence.WokenNext` | apps/chuzz/src/cookie_store.rs:91-170 | a writer that waits with work pending has a stored permit or a thread about to notify it |
| `CookiePersistence.InvNext` | apps/chuzz/src/cookie_store.rs:91-284 | every step of every mutator, requester, notifier and of the writer keeps the whole invariant |
| `CookiePersistence.InvRun` | apps/chuzz/src/cookie_store.rs:91-284 | the invariant holds at every point of every interleaving |
| `CookieGuarantees.RequestOf` | apps/chuzz/src/cookie_store.rs:112-140 | every accepted command stems from exactly one request step, and carries the last text published by then |
| `CookieGuarantees.PromiseIsJar` | apps/chuzz/src/cookie_store.rs:442-498 | the text promised to a request is the jar of that moment if and only if something had been published or the store was opened on a table that read as its jar |
| `CookieGuarantees.FlushBarrier` | apps/chuzz/src/cookie_store.rs:657-669 | in every run, whatever table and jar the store was opened with, a flush or close answered Ok finds the table reading back exactly the last text published before its one request, with no earlier write failed; that text is the jar of that moment if and only if something had been published by then or the table read as the jar at the start |
| `CookieGuarantees.TornTableFlushed` | apps/chuzz/src/cookie_store.rs:458-482 | for every table and jar a run in which a flush before any mutation is answered Ok with the table untouched |
| `CookieGuarantees.WritesInOrder` | apps/chuzz/src/cookie_store.rs:231-270 | of any two writes in any run the later one has the higher generation |
| `CookieGuarantees.DrainOnStop` | apps/chuzz/src/cookie_store.rs:207-283 | whenever the writer has stopped, every accepted command is answered, ring and slot are empty, and an error-free table holds the last published text, or what it held at the start if there was none |
| `CookieGuarantees.WriterStepDecreases` | apps/chuzz/src/cookie_store.rs:207-283 | every writer step lowers the weighted measure over ring, slot, permit, due generation and place in the loop |
| `CookieGuarantees.WriterCanStep` | apps/chuzz/src/cookie_store.rs:207-283 | a writer that neither waits without a permit nor has stopped can take a step |
| `CookieGuarantees.WriterProgress` | apps/chuzz/src/cookie_store.rs:207-283 | producers quiet, the writer takes at most the measure in steps, and where it blocks everything is answered and the error-free table holds the last published text, or what it held at the start if there was none |
| `CookieGuarantees.DebouncedWrite` | apps/chuzz/src/cookie_store.rs:208-276 | while open, the timer writes only a snapshot that sat through one whole debounce wait: no publication from the start of the wait until the pick |
| `CookieGuarantees.RequestOutcome` | apps/chuzz/src/cookie_store.rs:112-140 | a request is refused exactly when the store is closed or 128 commands wait; one that is taken goes behind the others with what the slot held |
| `CookieGuarantees.PublishOutcome` | apps/chuzz/src/cookie_store.rs:91-110 | a publication is refused exactly when the store is closed; one that is taken replaces what the slot held |
| `CookieWriter.Writer.RecordDurableSnapshot` | apps/chuzz/src/cookie_store.rs:782-798 | recording is one writer step, sets an error only if a table operation has failed, keeps the first one for good, and leaves the table as that step says |
| `CookieWriter.Writer.RunCommand` | apps/chuzz/src/cookie_store.rs:232-261 | a command is recorded and then answered, Ok exactly when no write has ever failed and the table settled; the two steps form a run of the protocol |
| `CookieWriter.Writer.RunWrite` | apps/chuzz/src/cookie_store.rs:262-270 | a timer or drain write is one protocol step and clears the due generation |
| `CookieWriter.Writer.RunDebounce` | apps/chuzz/src/cookie_store.rs:271-276 | the due generation is set exactly when the wait was not cut short by a permit |
| `CookieWriter.Writer.RunWait` | apps/chuzz/src/cookie_store.rs:277-277 | a stored permit is taken and the loop goes on; without one the writer is blocked |
| `CookieWriter.Writer.Pick` | apps/chuzz/src/cookie_store.rs:208-230 | the choice under the lock is the pick step of the protocol |
| `CookieWriter.Writer.Perform` | apps/chuzz/src/cookie_store.rs:231-282 | whatever was picked, and whatever producers have done since, is performed as a run of writer steps |
| `CookieWriter.Writer.Turn` | apps/chuzz/src/cookie_store.rs:207-283 | one turn of the loop is a run of writer steps from pick to pick, wait or stop |
| `CookieWriter.Writer.RunPersistence` | apps/chuzz/src/cookie_store.rs:199-284 | the loop, producers quiet, ends within the measure, stopped or waiting, with ring and slot empty, every command answered and the error-free table holding the last published text; over a table that neither fails nor stays unsettled every answer is Ok |
| `SessionHistory.Refines` | apps/chuzz/src/browser.rs:756-774 | each operation on vector and index is the operation of the same name on a pair of stacks |
| `SessionHistory.RunRefines` | apps/chuzz/src/browser.rs:1558-1600 | every run refines the stack pair, never empty, index in range, at most 128 entries |
| `SessionHistory.BackThenForward` | apps/chuzz/src/browser.rs:1558-1600 | n steps back and n steps forward restore position and entries, for every possible n |
| `TabObject.TabState.CancelDeadline` | apps/chuzz/src/tab_lifecycle.rs:98-106 | a new epoch and no deadline |
| `TabObject.TabState.LifeNavigate` | apps/chuzz/src/tab_lifecycle.rs:114-129 | a navigation voids timers, preview and the discarded mark, and keeps `Discarding` and `Freezing` |
| `TabObject.TabState.ArmHidden` | apps/chuzz/src/tab_lifecycle.rs:205-245 | a deadline is armed only for a live hidden tab without one, at `hidden_at` plus the delay, saturating |
| `TabObject.TabState.ArmRestore` | apps/chuzz/src/tab_lifecycle.rs:247-286 | only a waking tab gets a restore deadline |
| `TabObject.TabState.ScheduleCurrent` | apps/chuzz/src/browser.rs:660-706 | the whole new tab in each of its cases (discarding, freezing, refused, started), and a load starts exactly in the last |
| `TabObject.TabState.Redirect` | apps/chuzz/src/browser.rs:756-774 | life and history after a navigation |
| `TabObject.TabState.RequestWake` | apps/chuzz/src/tab_lifecycle.rs:353-387 | the new tab in each case, and whether a load is to be scheduled |
| `TabObject.TabState.CommitSleep` | apps/chuzz/src/tab_lifecycle.rs:586-633 | the tab after the last lock region of a committed sleep: new generation and epoch, nothing mounted, stripped history, the receipt |
| `TabObject.TabState.StripHistory` | apps/chuzz/src/tab_lifecycle.rs:617-623 | every entry keeps verb and URL and loses the rest; the position stays |
| `TabObject.TabState.RestoreTimeout` | apps/chuzz/src/tab_lifecycle.rs:288-324 | new generation, restore failed, the mounted page given up against a receipt |
| `TabObject.TabState.Release` | apps/chuzz/src/tab_lifecycle.rs:681-708 | the phase after a receipt, and whether a wake was asked for |
| `TabObject.TabState.Mount` | apps/chuzz/src/browser.rs:922-953 | the tab after a mount, with `hidden_at` set only the first time |
| `TabObject.TabState.SetVisible` | apps/chuzz/src/tab_lifecycle.rs:710-733 | a visibility change takes a new epoch and re-arms |
| `TabObject.TabState.NavigateRequest` | apps/chuzz/src/browser.rs:756-774 | the whole command: forward entries go, the new entry comes, at 129 entries the oldest goes, and the tab is scheduled |
| `TabObject.TabState.GoBack` | apps/chuzz/src/browser.rs:1558-1578 | the whole command: one entry back and scheduled exactly when possible, otherwise nothing |
| `TabObject.TabState.GoForward` | apps/chuzz/src/browser.rs:1580-1600 | the whole command: one entry forward and scheduled exactly when possible, otherwise nothing |
| `TabObject.TabState.WakeTab` | apps/chuzz/src/tab_lifecycle.rs:353-387 | the whole command leaves the tab of the wake step |
| `TabObject.TabState.CheckSleep` | apps/chuzz/src/tab_lifecycle.rs:451-480 | the early returns add up to the condition under which a sleep may commit |
| `TabObject.TabState.HandleSleep` | apps/chuzz/src/tab_lifecycle.rs:443-633 | checks, freeze handlers, second check and commit: the tab of the sleep step, committed exactly when the checks pass and the page is able |
| `TabObject.TabState.HandleRestoreTimeout` | apps/chuzz/src/tab_lifecycle.rs:288-324 | guard and effect: the tab of the restore timeout step |
| `TabObject.TabState.HandleReleased` | apps/chuzz/src/tab_lifecycle.rs:681-708 | receipt check, release and the wake that was asked for: the tab of the released step |
| `TabObject.TabState.HandleVisibility` | apps/chuzz/src/tab_lifecycle.rs:710-733 | guard and effect: the tab of the visibility step |
| `TabObject.TabState.HandlePainted` | apps/chuzz/src/tab_lifecycle.rs:734-770 | preview paint, page paint or neither: the tab of the painted step |
| `TabObject.TabState.RunScripts` | apps/chuzz/src/browser.rs:841-858 | a loop of navigations leaves the tab of the same navigations in the step relation |
| `TabObject.TabState.HandleBundle` | apps/chuzz/src/browser.rs:785-953 | a whole bundle with both generation checks, scripts between them, failed wake and mount: the tab of the load step, shown exactly when that step mounts |
| `TabLifecycle.InvSchedule` | apps/chuzz/src/browser.rs:660-706 | scheduling keeps the invariant, never leaves or enters `Discarding`, and starts loads under new generations and epochs only |
| `TabLifecycle.FreezeCommits` | apps/chuzz/src/tab_lifecycle.rs:512-543 | whatever the freeze handlers navigate to, the sleep still commits and no load starts |
| `TabLifecycle.InvSleep` | apps/chuzz/src/tab_lifecycle.rs:443-633 | a sleep message either passes all checks and commits to `Discarding` under a new generation and receipt, or changes nothing |
| `TabLifecycle.InvLoad` | apps/chuzz/src/browser.rs:785-953 | handling a bundle keeps the invariant; it mounts only the generation it carries, and only if page scripts started nothing newer |
| `TabLifecycle.InvNext` | apps/chuzz/src/tab_lifecycle.rs:658-760 | every step keeps the invariant and takes neither generation nor epoch back |
| `TabLifecycle.InvRun` | apps/chuzz/src/tab_lifecycle.rs:658-760 | the invariant holds at every point of every run |
| `TabGuarantees.MountsIncrease` | apps/chuzz/src/browser.rs:922-952 | over every run the generations of mounted pages strictly increase |
| `TabGuarantees.StaleLoadNeverMounts` | apps/chuzz/src/browser.rs:785-796 | a load in flight when a newer load starts, a sleep commits or a restore times out is never mounted, in that step or later, even when page scripts navigate between the two checks |
| `TabGuarantees.CommitDiscards` | apps/chuzz/src/tab_lifecycle.rs:586-633 | a step enters `Discarding` exactly when a sleep message passes all checks, and then holds the receipt given out in that step |
| `TabGuarantees.AutomaticSleepIsDue` | apps/chuzz/src/tab_lifecycle.rs:443-469 | an automatic sleep commits only with the tab hidden and the clock at or past the recorded `hidden_at` plus the delay |
| `TabGuarantees.VoidedSleepNeverCommits` | apps/chuzz/src/tab_lifecycle.rs:98-129 | a sleep message queued before a visibility change, a navigation or a started load never commits after it |
| `TabGuarantees.DiscardStep` | apps/chuzz/src/tab_lifecycle.rs:681-708 | one step from `Discarding`: it holds and remembers any request, or the exact completed receipt ends it |
| `TabGuarantees.DiscardBarrier` | apps/chuzz/src/tab_lifecycle.rs:353-387 | a whole teardown: it ends only by the receipt its commit was given, completed; nothing is mounted and no load starts meanwhile; a page asked for in between becomes `Waking`, or `RestoreFailed` for an entry that cannot be repeated |
| `TabGuarantees.AlignedIff` | apps/chuzz/src/browser.rs:660-706 | the load that can still mount belongs to the entry on show, and a step keeps this if and only if it is not a Back or Forward, with a load in flight, to an entry that `schedule_current` refuses |
| `TabGuarantees.MountResolvesItsEntry` | apps/chuzz/src/browser.rs:922-937 | on a run without such a step, a mounted page writes its URL into the entry it was loaded for and no other |
| `TabVacancy.VacantIff` | apps/chuzz/src/tab_lifecycle.rs:681-708 | a step keeps a sleeping tab without a page if and only if it is not the release of a tab that has a page mounted, is not RestoreFailed and was not asked to wake |
| `TabVacancy.SleeperHasNoPage` | apps/chuzz/src/tab_lifecycle.rs:681-708 | over every run without such a release a sleeping tab has nothing mounted |
| `TabVacancy.MountedSleeper` | apps/chuzz/src/tab_lifecycle.rs:696-699 | a concrete run with such a release: a failed reload is slow to go, a navigation mounts meanwhile, and the late receipt puts the tab to sleep with that page mounted |
| `TabTimer.RecordedNext` | apps/chuzz/src/tab_lifecycle.rs:720-729 | the recorded time moves exactly when a visible tab is hidden or its first page is mounted, and then to the present |
| `TabTimer.HiddenLongEnough` | apps/chuzz/src/tab_lifecycle.rs:443-469 | in every run an automatic sleep commits only a whole delay after every earlier step that hid the tab, and after the mount of its first page |
| `TabTimer.HidingArms` | apps/chuzz/src/tab_lifecycle.rs:205-245 | hiding a live tab sets a timer running for the present generation and epoch, due a delay after that moment |
| `TabTimer.FirstMountArms` | apps/chuzz/src/browser.rs:939-953 | so does the mount of the first page |
| `TabTimer.ArmedIff` | apps/chuzz/src/tab_lifecycle.rs:734-771 | a step leaves a live hidden tab with a timer due a delay after the recorded time if and only if it is not the paint of a woken tab that was never shown |
| `TabTimer.HiddenTabHasTimer` | apps/chuzz/src/tab_lifecycle.rs:205-245 | over every run without such a paint, a live tab that is not visible has its timer |
| `TabTimer.LiveWithoutTimer` | apps/chuzz/src/tab_lifecycle.rs:761-763 | a concrete run with such a paint: the tab is live, not visible and without a timer |
| `TabEffects.ScheduleAsks` | apps/chuzz/src/browser.rs:660-706 | asking for the entry on show: held back by a teardown, refused for resubmission, or a load for that entry in flight under the next generation, with a restore deadline 30 seconds on for a discarded page |
| `TabEffects.WakeWakes` | apps/chuzz/src/tab_lifecycle.rs:353-387 | waking: later, refused, after the preview, or a load started |
| `TabEffects.GoDoes` | apps/chuzz/src/browser.rs:756-774 | the request is on show behind the entry that was, nothing lies ahead, and a load for it is started unless a teardown holds it back |
| `TabEffects.MoveDoes` | apps/chuzz/src/browser.rs:1558-1600 | one entry back or forward, asked for, exactly when there is one |
| `TabEffects.ReloadDoes` | apps/chuzz/src/browser.rs:1610-1630 | a reload or a selection wakes a tab that is away and asks for the entry of one that is not |
| `TabEffects.AskSleepDoes` | apps/chuzz/src/tab_lifecycle.rs:326-351 | a sleep is queued under the present numbers exactly for a live page that is not loading |
| `TabEffects.SleepDoes` | apps/chuzz/src/tab_lifecycle.rs:443-633 | a sleep message discards the tab exactly under the listed conditions, and changes nothing otherwise |
| `TabEffects.FreezeKeepsNavigation` | apps/chuzz/src/tab_lifecycle.rs:512-543 | what a freeze handler navigates to last is the entry on show afterwards |
| `TabEffects.CommitDoes` | apps/chuzz/src/tab_lifecycle.rs:586-633 | a committed sleep leaves no page, and every entry its URL and verb and an empty rest |
| `TabEffects.VisibilityDoes` | apps/chuzz/src/tab_lifecycle.rs:710-733 | a visibility message for the page on show sets the flag under a new epoch; any other changes nothing |
| `TabEffects.PaintedDoes` | apps/chuzz/src/tab_lifecycle.rs:734-771 | the paint of the preview asks for the page, that of the page ends the wake, any other changes nothing |
| `TabEffects.TimeoutDoes` | apps/chuzz/src/tab_lifecycle.rs:288-324 | a restore that ran out of time is given up with its page; a stale message changes nothing |
| `TabEffects.ReleasedDoes` | apps/chuzz/src/tab_lifecycle.rs:681-708 | exactly the awaited, complete receipt is dropped, and a wake asked for is made good |
| `TabEffects.StaleLoadDoes` | apps/chuzz/src/browser.rs:785-796 | a load that is no longer the newest changes nothing |
| `TabEffects.CurrentLoadDoes` | apps/chuzz/src/browser.rs:889-953 | the newest load, its scripts staying, is mounted with its URL in the entry on show, or given up if it failed for a waking tab |
| `TabDiversion.WrongEntryMounted` | apps/chuzz/src/browser.rs:660-706 | a concrete run with such a step: the page of one entry is mounted over, and overwrites the URL of, another |
| `Egress.FaithfulNext` | apps/chuzz/src/serve_egress.rs:362-419 | every read, exchange, write, end of stream and stop keeps a relay faithful, and the counter moves by exactly what is granted |
| `Egress.TraceFaithful` | apps/chuzz/src/serve_egress.rs:362-419 | any run of one relay, with other relays raising the counter between its steps, keeps it faithful |
| `Egress.InvNext` | apps/chuzz/src/serve.rs:488-510 | for any number of relays, one step of any of them keeps the counter equal to the sum of grants and within the budget |
| `Egress.SharedBudget` | apps/chuzz/src/serve.rs:488-510 | in every run the counter is the sum of all grants, stays within the budget, bounds all bytes delivered, and a relay is cut short only with the whole budget granted |
| `Egress.RelayFidelity` | apps/chuzz/src/serve_egress.rs:350-419 | in every run, delivered bytes and the unsent buffer are a prefix of the bytes read, all of them while budget remains; the write side is shut at most once and only after the last byte |
| `Egress.ConnectionsBounded` | apps/chuzz/src/serve_egress.rs:113-147 | however drops interleave with the separate check and increment, the count is the number of live leases and within the limit |
| `Egress.AcceptorDecides` | apps/chuzz/src/serve_egress.rs:218-239 | a connection is admitted, with a lease of its own, exactly when the count seen is below 16, and turned away otherwise |
| `RelayObject.Budget.ReserveProxyBytes` | apps/chuzz/src/serve.rs:488-510 | the retry loop grants at most what was asked for, and less only when the whole budget has been granted, whatever other relays do between load and exchange; its loads and exchanges form a run of the relay |
| `RelayObject.Relay.Send` | apps/chuzz/src/serve_egress.rs:380-392 | a partial write is the write step of the relay, and registers with the socket exactly when it is pending |
| `RelayObject.Relay.Receive` | apps/chuzz/src/serve_egress.rs:393-416 | a read and its reservation form a run of the relay, which ends exactly at end of stream and is exhausted only with the budget spent |
| `RelayObject.Relay.BytesKept` | apps/chuzz/src/serve_egress.rs:350-419 | for the object reached from a faithful relay: bytes received and the unsent buffer are a prefix of the bytes read, all of them unless exhausted; one shutdown, after the whole stream |
| `RelayObject.Relay.Step` | apps/chuzz/src/serve_egress.rs:362-419 | a step is a run of the relay; it finishes exactly when ended; it breaks exactly when a socket failed or took nothing in this step or the budget is spent and all that was granted is sent; and when it suspends it has, in this very step, registered with exactly the socket it waits for, or woken itself after 64 passes that each did something |
| `RelayObject.OpenTunnel` | apps/chuzz/src/serve_egress.rs:422-424 | two new relays are faithful and meet what a poll asks for |
| `RelayObject.PollTunnel` | apps/chuzz/src/serve_egress.rs:422-438 | one poll of a tunnel: both relays step and stay faithful; it is done exactly when one has broken, with a failed socket or a spent budget to blame, or both have ended; otherwise no socket failed, and a relay that has not ended has registered with exactly the socket it waits for, or woken itself, in this very poll |
| `RequestChannel.AccountedSender` | apps/chuzz/src/serve_page_control.rs:93-110 | sending keeps accepted equal to received, abandoned and queued, in order |
| `RequestChannel.AccountedReceiver` | apps/chuzz/src/serve_page_control.rs:144-221 | so do receiving and draining |
| `RequestChannel.WatchedNext` | apps/chuzz/src/serve_page_control.rs:36-44 | a step leaves an unnotified receiver with nothing new to see unless its author still owes the notification |
| `RequestChannel.InvRun` | apps/chuzz/src/serve_page_control.rs:93-221 | the invariant holds at every point of every run |
| `RequestChannel.ExactlyOnce` | apps/chuzz/src/serve_page_control.rs:93-110 | every accepted request is received once and in order, queued, or abandoned by the receiver's drop, after which none is queued |
| `RequestChannel.NoneAcceptedAfterClose` | apps/chuzz/src/serve_page_control.rs:210-221 | no request is accepted once the receiver has begun to close |
| `RequestChannel.NoLostWakeup` | apps/chuzz/src/serve_page_control.rs:144-175 | a receiver parked without a notification has no request, page wake or closed sender to see, unless the party that gave it one is about to notify |
| `RequestChannel.PageWakesCounted` | apps/chuzz/src/serve_page_control.rs:36-44 | in every run each answer for a page wake uses up one that was stored, and a stored one stays until it is answered |
| `RequestChannel.ReceiverGoesOn` | apps/chuzz/src/serve_page_control.rs:144-175 | a receiver that is neither parked nor held up by the lock can take a step |
| `RequestChannel.EmptyPopOf` | apps/chuzz/src/serve_page_control.rs:149-163 | between pop and check, the last pop came up empty, and what was accepted since was pushed by the steps after it |
| `RequestChannel.DisconnectedIff` | apps/chuzz/src/serve_page_control.rs:153-163 | in every run, Disconnected from `receive` or `try_recv` leaves the queue empty if and only if no request was pushed between its empty pop and its check, and always when the sender had gone by the pop |
| `RequestChannel.DisconnectedWithRequestQueued` | apps/chuzz/src/serve_page_control.rs:153-197 | for both calls and any capacity, a concrete run in which Disconnected is answered with a request queued |
| `RequestChannel.Channel.TrySend` | apps/chuzz/src/serve_page_control.rs:93-110 | the three answers, and accepted exactly when Sent |
| `RequestChannel.Channel.TryRecv` | apps/chuzz/src/serve_page_control.rs:182-197 | the oldest request if there is one; otherwise, with the sender acting between pop and check, whether it is still there, and what it pushed meanwhile stays queued; nothing does if it had gone before the call |
| `RequestChannel.Channel.DropReceiver` | apps/chuzz/src/serve_page_control.rs:210-221 | everything queued is abandoned in order and the channel is shut |
| `Utf8Codec.Encode` | apps/chuzz/src/document_loader.rs:2133-2167 | the encoder's loop computes the encoding of the string, scalar by scalar |
| `Utf8Codec.Decode` | apps/chuzz/src/document_loader.rs:2187-2235 | the decoder's loop terminates on all bytes and computes their decoding |
| `Utf8Codec.ReadTails` | apps/chuzz/src/document_loader.rs:2212-2218 | the continuation loop: accumulated code, bytes read, and whether all were there |
| `Utf8Codec.RoundReadsScalar` | apps/chuzz/src/document_loader.rs:2187-2235 | one round reads back the bytes of any scalar, whatever follows |
| `Utf8Codec.RoundReadsCharacter` | apps/chuzz/src/document_loader.rs:2187-2235 | one round on a well-formed character consumes it and yields its scalar |
| `Utf8Codec.DecodeEncode` | apps/chuzz/src/document_loader.rs:2133-2235 | decoding the encoding of any UTF-16 string gives the string with each lone surrogate replaced by U+FFFD |
| `Utf8Codec.EncodeDecode` | apps/chuzz/src/document_loader.rs:2133-2235 | encoding the decoding of any well-formed byte string (section 4 of RFC 3629) gives it back |
| `Utf8Codec.EncodedWellFormed` | apps/chuzz/src/document_loader.rs:2133-2167 | the encoder only writes well-formed UTF-8 |
| `Utf8Codec.DecodedHasNoLone` | apps/chuzz/src/document_loader.rs:2187-2235 | on arbitrary bytes the decoder never yields a lone surrogate |
| `Utf8Damage.DecodedSplits` | apps/chuzz/src/document_loader.rs:2201-2233 | bytes in front of one that is no continuation byte are decoded as if it were not there, and it as if they were not |
| `Utf8Damage.DamageIsReplaced` | apps/chuzz/src/document_loader.rs:2211-2226 | where no well-formed character starts, one U+FFFD stands for the byte and the continuation bytes behind it, as many as it calls for or as there are, and the rest is decoded on its own |
| `Utf8Damage.CharacterIsDecoded` | apps/chuzz/src/document_loader.rs:2201-2233 | where one starts, its scalar is decoded, and the rest on its own |
| `Base64.AppendBase64` | apps/chuzz/src/pdf.rs:190-209 | the Rust encoder appends the base64 text (section 4 of RFC 4648) of the bytes |
| `Base64.Btoa` | apps/chuzz/src/document_loader.rs:2102-2120 | fails exactly when a unit exceeds 255, otherwise yields the same text as the Rust encoder |
| `Base64.Atob` | apps/chuzz/src/document_loader.rs:2075-2101 | the decoder's loop computes the decoding, errors included |
| `Base64.CollectDigits` | apps/chuzz/src/document_loader.rs:2083-2100 | digit by digit, with the accumulator below two to the number of bits at every turn |
| `Base64.AtobAccepts` | apps/chuzz/src/document_loader.rs:2075-2101 | a text is accepted if and only if, without spaces and trailing padding, it is all alphabet and its length is not one more than a multiple of four |
| `Base64.WideFits` | apps/chuzz/src/document_loader.rs:2090-2098 | taking in a digit and giving out a byte keep the accumulator below two to the number of bits and the byte below 256 |
| `Base64.AtobBtoa` | apps/chuzz/src/document_loader.rs:2068-2121 | decoding the encoding of any byte string gives it back |
| `CodecTexts.DigitIsAlphabet` | apps/chuzz/src/document_loader.rs:2074-2074 | the digits are A-Z, a-z, 0-9, plus and slash, and padding is an equals sign |
| `CodecTexts.EncodingShape` | apps/chuzz/src/document_loader.rs:2102-2120 | an encoding has four characters for every three bytes or part of three, padded exactly where bytes are missing |
| `CodecTexts.AtobIgnoresBlanks` | apps/chuzz/src/document_loader.rs:2078-2078 | a space, tab, line feed, form feed or carriage return anywhere makes no difference |
| `CodecTexts.UnspacedKeeps` | apps/chuzz/src/document_loader.rs:2078-2078 | nothing else is ignored |
| `CodecTexts.TrimEndIs` | apps/chuzz/src/document_loader.rs:2078-2078 | exactly the trailing equals signs are trimmed |
| `Escape.EscapeText` | apps/chuzz/src/document_loader.rs:2045-2066 | the loop computes the escaped text |
| `Escape.UnescapeText` | apps/chuzz/src/document_loader.rs:2018-2043 | the loop computes the unescaped text |
| `Escape.TokenOfEscaped` | apps/chuzz/src/document_loader.rs:2018-2066 | one escaped unit is read back as one token, whatever follows |
| `Escape.EscapedIsPlain` | apps/chuzz/src/document_loader.rs:2045-2066 | the escaped text holds unreserved characters and percent signs only, and equals the text if and only if nothing needed escaping |
| `Escape.UnescapeEscape` | apps/chuzz/src/document_loader.rs:2017-2066 | unescaping the escape of any UTF-16 string gives it back |
| `CodecTexts.KeptIs` | apps/chuzz/src/document_loader.rs:2048-2055 | letters, digits and seven signs are left alone |
| `CodecTexts.EscapedForm` | apps/chuzz/src/document_loader.rs:2050-2064 | how each unit is written: as it is, with two or with four upper-case digits |
| `CodecTexts.ReadsNarrow` | apps/chuzz/src/document_loader.rs:2031-2036 | two digits behind a percent sign, in any mixture of cases, are read as one unit |
| `CodecTexts.ReadsWide` | apps/chuzz/src/document_loader.rs:2025-2030 | so are four behind "%u" |
| `CodecTexts.ReadsPlain` | apps/chuzz/src/document_loader.rs:2038-2039 | anything but a percent sign stands for itself |
| `CodecTexts.ReadsPercent` | apps/chuzz/src/document_loader.rs:2038-2039 | so does a percent sign that no digits follow |
| `ObserverGeometry.RegionIsIntersection` | apps/chuzz/src/document_loader.rs:1264-1281 | the region the loop leaves holds exactly the points that target and every clip hold |
| `ObserverGeometry.RegionIgnoresOrder` | apps/chuzz/src/document_loader.rs:1305-1333 | the same clips in any order and number give the same region |
| `ObserverGeometry.RatioInRange` | apps/chuzz/src/document_loader.rs:1334-1348 | a target with an area that is seen at all has a ratio in (0, 1] and a positive rectangle; an unseen one reports nothing |
| `ObserverGeometry.SeenIgnoresOrder` | apps/chuzz/src/document_loader.rs:1287-1356 | whole reports do not depend on the order of the clips, for targets without an area too |
| `ObserverGeometry.WalkAncestors` | apps/chuzz/src/document_loader.rs:1305-1328 | the walk visits at most 64 ancestors and computes region or containment over exactly those |
| `ObserverGeometry.Ratio` | apps/chuzz/src/document_loader.rs:1340-1343 | neither clamp ever changes the ratio; only the snap to one does |
| `ObserverGeometry.Geometry` | apps/chuzz/src/document_loader.rs:1287-1356 | the report is that of the target under the visited ancestors and the expanded root, or a miss when not rendered or outside the root |
| `ObserverGeometry.ThresholdIndex` | apps/chuzz/src/document_loader.rs:1357-1364 | the loop finds the last threshold reached |
| `ObserverGeometry.IndexSeparates` | apps/chuzz/src/document_loader.rs:1357-1364 | over sorted thresholds a threshold is reached if and only if it is not above the index |
| `ObserverMeaning.ExpandedEdges` | apps/chuzz/src/document_loader.rs:1257-1263 | the root margin moves each edge outwards, by pixels or by a percentage of the height or width |
| `ObserverMeaning.ReportCovers` | apps/chuzz/src/document_loader.rs:1302-1331 | the reported rectangle holds exactly the points inside the target, the first 64 ancestors where they clip, and the root |
| `ObserverMeaning.ReportIffPoint` | apps/chuzz/src/document_loader.rs:1334-1344 | a target with an area is reported as intersecting exactly when there is such a point |
| `ObserverMeaning.RatioIsArea` | apps/chuzz/src/document_loader.rs:1340-1343 | the ratio times the area of the target is the area of the rectangle, or the ratio is one when all but a millionth is covered |
| `ObserverMeaning.TouchesIsMeeting` | apps/chuzz/src/document_loader.rs:1282-1286 | a box touches a clip exactly when they share a point, edges included |
| `ObserverMeaning.EmptyTargetSeen` | apps/chuzz/src/document_loader.rs:1344-1348 | a target without an area is seen wholly, at its own place, exactly when it touches every clip |
| `ObserverMeaning.IndexCounts` | apps/chuzz/src/document_loader.rs:1357-1364 | a threshold is at or below the index exactly when the target is seen by at least that much |
| `ObserverScheduler.MeasuredSound` | apps/chuzz/src/document_loader.rs:1375-1399 | measuring one target keeps a record sound: distinct observations, live queue, reports accounted for, successive ones different |
| `ObserverScheduler.ReducedSound` | apps/chuzz/src/document_loader.rs:1534-1547 | so does ending one observation with its queued entries |
| `ObserverScheduler.HandedSound` | apps/chuzz/src/document_loader.rs:1413-1415 | handing a queue over loses and repeats no report |
| `ObserverScheduler.RetainedLists` | apps/chuzz/src/document_loader.rs:1448-1459 | `ioRetain` restores the active list and the frame after any change of one record |
| `ObserverScheduler.InvNext` | apps/chuzz/src/document_loader.rs:1365-1561 | every page operation, frame and delivery step keeps the invariant |
| `ObserverScheduler.InvRun` | apps/chuzz/src/document_loader.rs:1365-1561 | the invariant holds at every point of every run, inside callbacks too |
| `ObserverScheduler.NoEntryStranded` | apps/chuzz/src/document_loader.rs:1403-1468 | in every run an observer is active exactly when it has targets, a frame is scheduled while it is, and every queued entry names a target still observed, in an active observer, with a delivery scheduled or under way |
| `ObserverScheduler.SuccessiveEntriesDiffer` | apps/chuzz/src/document_loader.rs:1385-1398 | in every run the entries of one observation, handed over and waiting, differ one from the next in threshold index or `isIntersecting`, and are exactly what it reported, each once |
| `ObserverScheduler.FrameReportsPresent` | apps/chuzz/src/document_loader.rs:1431-1441 | after a frame every observation that could be read has a last report that agrees with the reading |
| `ObserverEffects.ObserveDoes` | apps/chuzz/src/document_loader.rs:1522-1533 | a new target is put behind the others, unseen, its observer active with a frame to come; a known one changes nothing, nor does any other record change |
| `ObserverEffects.UnobserveDoes` | apps/chuzz/src/document_loader.rs:1534-1547 | exactly that observation and its queued entries go; the others stay in order |
| `ObserverEffects.DisconnectDoes` | apps/chuzz/src/document_loader.rs:1548-1554 | every observation and queued entry of the record goes, and no other record changes |
| `ObserverEffects.TakeDoes` | apps/chuzz/src/document_loader.rs:1555-1561 | the whole queue is handed over |
| `ObserverEffects.FrameDoes` | apps/chuzz/src/document_loader.rs:1375-1399 | a target that could not be read, or that looks as it did, is left alone; any other gets one report of its reading |
| `ObserverEffects.DeliverDoes` | apps/chuzz/src/document_loader.rs:1409-1422 | one record is handed its whole queue and nothing else changes |
| `ObserverEffects.ObservedSince` | apps/chuzz/src/document_loader.rs:1522-1561 | over every run a target stays observed from the step that observes it until one that gives it up |
| `ObserverEffects.ObservedIsReported` | apps/chuzz/src/document_loader.rs:1365-1441 | over every run such a target has a report after every frame that can read it, handed to the page or queued |
| `ObserverObject.RemoveTarget` | apps/chuzz/src/document_loader.rs:1540-1543 | the loop keeps the other observations in order |
| `ObserverObject.DropQueued` | apps/chuzz/src/document_loader.rs:1460-1466 | the loop keeps the entries of other targets in order |
| `ObserverObject.Update` | apps/chuzz/src/document_loader.rs:1365-1402 | the loop over the targets, and queued is reported exactly when the queue changed |
| `ObserverObject.Frames` | apps/chuzz/src/document_loader.rs:1431-1438 | the loop over the active records, and queued is reported exactly when some queue changed |
| `ObserverObject.Page.Retain` | apps/chuzz/src/document_loader.rs:1448-1459 | the new state is that of the scheduler's retain step |
| `ObserverObject.Page.Observe` | apps/chuzz/src/document_loader.rs:1522-1533 | the new state is that of the observe step; a repeated target changes nothing |
| `ObserverObject.Page.Unobserve` | apps/chuzz/src/document_loader.rs:1534-1547 | the new state is that of the unobserve step |
| `ObserverObject.Page.Disconnect` | apps/chuzz/src/document_loader.rs:1548-1554 | the new state is that of the disconnect step |
| `ObserverObject.Page.TakeRecords` | apps/chuzz/src/document_loader.rs:1555-1561 | returns the queue and empties it |
| `ObserverObject.Page.RunFrame` | apps/chuzz/src/document_loader.rs:1431-1441 | the new state is that of the frame step |
| `ObserverObject.Page.DeliverNext` | apps/chuzz/src/document_loader.rs:1409-1422 | one record is handed its queue and leaves the list |
| `DependencyWalk.Found` | scripts/audit-c-surface.ts:27-30 | a newly found package joins the queue with a valid route, and the queue stays ordered by route length |
| `DependencyWalk.RoutesCovered` | scripts/audit-c-surface.ts:20-32 | with the queue exhausted every route leads to a found package, recorded with a route no longer |
| `DependencyWalk.Walk` | scripts/audit-c-surface.ts:17-34 | terminates; succeeds if and only if every reachable package is resolved and listed; then finds exactly the reachable packages, each by a valid route of minimum length |
| `DependencyWalk.AdmitsNormal` | scripts/audit-c-surface.ts:25-25 | a dependency counts when it is a normal one, or a build one where those are wanted |
| `DependencyWalk.NamesPrint` | scripts/audit-c-surface.ts:29-29 | a route is printed package by package, by name |
| `DependencyAudit.RuntimeIsBuild` | scripts/audit-c-surface.ts:35-36 | what normal edges reach, normal and build edges reach |
| `DependencyAudit.ResolveRoots` | scripts/audit-c-surface.ts:12-16 | succeeds if and only if every root name matches exactly one package, and then gives those packages |
| `DependencyAudit.WalkRoots` | scripts/audit-c-surface.ts:35-36 | succeeds if and only if the graph is closed from every root, and then holds a normal and a build walk for each |
| `DependencyAudit.RoutesTo` | scripts/audit-c-surface.ts:43-44 | one entry for each root that reaches the package, in the order of the roots, with a shortest route |
| `PackageOrder.SortedIs` | scripts/audit-c-surface.ts:38-39 | the sort by name and then version is stable: in order, the same packages, equal ones as they came |
| `PackageOrder.SortedByName` | scripts/audit-c-surface.ts:39-39 | packages go by name, and by version under one name |
| `DependencyAudit.ListedIs` | scripts/audit-c-surface.ts:38-39 | exactly the native or forbidden packages are listed |
| `DependencyAudit.SurfaceIs` | scripts/audit-c-surface.ts:37-38 | listed are names that end in -sys, packages that link a library, and the five forbidden ones |
| `DependencyAudit.MembersAre` | scripts/audit-c-surface.ts:45-47 | exactly the workspace members that are listed and resolved are walked |
| `DependencyAudit.Surface` | scripts/audit-c-surface.ts:40-51 | each listed package, in order, with its features and its normal, build and workspace routes |
| `DependencyAudit.ItemViolates` | scripts/audit-c-surface.ts:52-52 | a listed package counts as a violation if and only if it is forbidden and some root reaches it over normal or build edges |
| `DependencyAudit.WalkMembers` | scripts/audit-c-surface.ts:45-50 | when anything is listed, succeeds if and only if the graph is closed from every resolved workspace member |
| `DependencyAudit.Audit` | scripts/audit-c-surface.ts:6-54 | throws if and only if the metadata is not full, a root does not resolve or the graph is not closed; otherwise the report lists exactly the native packages by name and version, with features and shortest routes from all roots and members that reach them, the violations are exactly the forbidden ones reachable from a root over normal and build edges, and it passes if and only if there are none |
| `LanguageTags.GreedyExtensions` | apps/chuzz/src/languages.rs:194-219 | taking extension parts as long as possible accepts the same sequences as any choice |
| `LanguageTags.GreedyIsGrammar` | apps/chuzz/src/languages.rs:158-221 | the greedy pass accepts exactly the subtag sequences of the grammar in section 2.1 of RFC 5646, with no variant or singleton repeated |
| `LanguageTags.PartsFold` | apps/chuzz/src/languages.rs:158-239 | subtags equal up to case have the same canonical form |
| `LanguageTags.AcceptsTheGrammar` | apps/chuzz/src/languages.rs:134-221 | a tag is accepted if and only if it is ASCII, 1 to 100 characters, and grandfathered or a join of subtags that match the grammar |
| `LanguageTags.CanonicalIgnoresCase` | apps/chuzz/src/languages.rs:134-279 | tags equal up to case canonicalise alike |
| `LanguageTags.CanonicalChangesCaseOnly` | apps/chuzz/src/languages.rs:134-279 | the canonical form equals the tag ignoring case |
| `LanguageTags.CanonicalTwice` | apps/chuzz/src/languages.rs:134-279 | canonicalising twice equals canonicalising once |
| `LanguageCase.PartsConventional` | apps/chuzz/src/languages.rs:158-221 | the canonical subtags are those of the formatting rule in section 2.1.1 of RFC 5646, which looks at lengths and positions only |
| `LanguageCase.CanonicalIsConventional` | apps/chuzz/src/languages.rs:134-221 | every accepted tag comes out formatted by that rule, or is a grandfathered tag in its listed spelling |
| `LanguageCase.FormattedIs` | apps/chuzz/src/languages.rs:176-183 | two letters are written in upper case, four with a capital, any other number in lower case, character by character |
| `LanguageCase.SubtagShapes` | apps/chuzz/src/languages.rs:241-279 | each subtag predicate by length and characters, as in section 2.1 of RFC 5646 |
| `LanguageTags.CanonicalParts` | apps/chuzz/src/languages.rs:158-221 | the index-and-push loops compute the canonical subtags or refuse |
| `LanguageTags.CanonicalBcp47` | apps/chuzz/src/languages.rs:134-221 | the whole method computes the canonical form or refuses |

## Left out

- Cookie parsing, matching, expiry and public-suffix rules: the jar is the text of its last serialisation, and a store
  may be opened with any table and any jar. Expiry by the clock between two mutations and a failing serialisation are
  not modelled.
- Overflow of the cookie generation, the tab generation and the epoch, where the code panics: they are unbounded.
- The mutation gate around `close`: `close` consumes the store, so it is modelled as needing the gate free.
- `SleepingBudget`, `PageStash`, `TabRegistry` and `Teardown`: a receipt is a number with a one-way completed mark;
  a spent budget, an oversized record or a missing document is the flag `able`.
- Several tabs at once, closing a tab, and the order of the message queue: one tab is modelled, messages are handled
  in any order, and a timer may fire even after its cancellation. Every real run is among these.
- Commands that interleave with one document-thread step, and the failure of `retire_sub_document` for a page just
  checked as mounted.
- Load reasons, load signals, initiators, cache revalidation and the record of a sleeping page.
- `RelayObject.Budget.ReserveProxyBytes`: the number of failed exchanges is a parameter, so the retry loop ends; that
  other relays stop interfering is not proved.
- Sockets: a source or sink that reads or writes any number of bytes, suspends or fails. The CONNECT handshake,
  address policy and the cancellation of connections are not modelled.
- `Notify`: at most one stored permit, and a registered future that is notified at most once.
- Shifts and masks of the codecs: written as division and remainder.
- `encodeInto`, encoding labels and the conversion of arguments to strings.
- Floating point in the observer geometry: real numbers. Parsing of margins and thresholds, and reading of boxes and
  styles, are inputs; a target whose reading throws has none.
- Page script that runs inside a geometry reading, through an overridden `getBoundingClientRect`: readings run no
  script.
- `DependencyAudit.Audit`: `localeCompare` is any function of two strings, and the sort is stable and in order for any
  that is consistent; of two packages with one id the later gives the name.
- `format_accept_language` and the choice of default tags: short single-branch code.
- Everything else in the repository (DOM, layout, painting, media, process set-up, bot-mode lists, other shim
  globals): foreign calls or easy members.
