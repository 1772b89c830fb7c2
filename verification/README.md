# Larkstack, modelled and proved in Dafny

Larkstack is a host that supervises small apps built around Lark. Most of it is plumbing; this
project models the parts where several steps, tasks or processes have to fit together, and proves
what they keep in every run. `dafny verify dfyconfig.toml` checks everything.

| module | models |
|---|---|
| DebounceMerge, DebounceProtocol, DebounceTrace | the Linear app's debounce map, its merging, and the race of timers, cancellations, takes and sends |
| Config, ConfigRoutes, RequestMeaning | the configuration as a tree of tables, change keys, the requests that edit it and its file, and a build-time reader |
| Supervisor, SupervisorTrace | the per-app supervisor with its watch channel, back-off and state slot |
| EventStore, EventStream, EventTrace | the event table with its rolling window, and the splice of replay and live stream under crashes and lag |
| Reminders, ReminderLog, ReminderTiming, ReminderRecipients | due-date tiers, the ledger, the query window, the whole life of a deadline, when passes run, and who is told |
| Migrations | the namespaced, transactional migration runner over any sequence of startups |
| Routing | destinations of an event |
| StandupTable, StandupCells, StandupSchedule | the standup document's writer against its reader, and the loop that wakes the standup jobs |
| LinearSettings, StandupSettings, Integers | the settings codecs and routes, on Rust's fixed-width integers |
| SseReader, SseFields, SseChunking | the dashboard's chunked reader of server-sent events against a character-by-character reference |
| Sequences, Text | optional values, deduplication, searching, trimming, splitting |

Protocols are state machines: a `Step` datatype, `Enabled` and `Apply`, and runs as sequences of
steps. For the debounce protocol and the supervisor, DebounceTrace and SupervisorTrace say from the
list of steps alone, without the state machine, which step can come next, and prove that the machine
agrees in every run. Objects that the source updates in place are classes whose methods are proved
against functions; the laws are lemmas about those functions, and wherever possible they say what a
result means without naming the function. What a service outside the repository
decides (a failing statement, an accepted credential, the order of tasks, the clock) is a parameter
or a free choice of the run.

## What the proofs brought to light

- **Debounce.** A timer whose sleep has ended can take a newer entry, so a quiet window is not
  guaranteed (StaleTimerTakesNewer). Sends of one key can overlap, so notifications can arrive in another
  order than their updates (SendsCanOvertake); the exact condition is SentInOrderIffNeverOvertakes.
- **Supervisor.** The comment at `crates/larkstack/src/supervisor.rs:186` promises exponential back-off
  for crashes. The code resets the back-off after every successful build, so a crashed run always
  restarts after one second (RestartDelays). The supervisor task holds a sender of its own
  configuration channel, so the channel never closes and the shutdown branches are never taken; the
  model lets it close at any time, and the theorems hold either way.
- **Change keys.** Equal keys do not quite mean equal builds: one ill-typed entry anywhere in the
  registry fails the build of every app (UnusedEntryCanFailBuild, EqualKeysBuildAlike). The edits move
  other apps' keys only for an app called `lark-apps` or `console`.
- **Configuration requests.** A file write that fails halfway leaves a file that differs from the live
  configuration until the next complete one (LastTouchDecides). Unbinding the console's sign-in answers
  that the console is open even where the section is an inline table and the binding stays (OpensIff).
  Deleting the registry entry of the binding opens the console, and deleting an app's entry makes its
  next build fail.
- **Event stream.** With ids broadcast in order, replay plus live stream is complete exactly under
  CompleteIff; in any order, ReconnectMisses says which events a client misses. Insert and trim are
  two statements outside a transaction, so a failed trim leaves a row too many until the next one. A
  failing query for the highest id is taken for an empty table, and ids are used again (ReuseIff). A
  last-seen id of 2^63 or more replays the oldest events (ReconnectFromHugeIdIff).
- **Reminders.** A cap or lead that takes the queried window out of the calendar, about 95 million days
  away, panics the pass before it fetches anything; the settings route accepts and stores such values,
  and then no reminder is ever sent (AcceptedSettingsCanSilence) while the app crashes and restarts
  every second. A check interval that leaves room for a whole date between two passes can skip that date
  (LooksDailyIff). The cut of tiers to 32 bits is harmless, since no pass that runs has a tier that large
  (RunningPassIsInRange). Recipients are deduplicated before addresses are overridden, so somebody can
  be told twice (RemindedOnceIff, OverridesCanCollide).
- **Migrations.** Tracking is exact if and only if no migration touches the tracking rows itself; an
  app whose prefix starts another app's prefix can drop that app's tables (NamespacesIsolated).
- **Standup table.** Only the last paragraph of a cell is read: a filled cell that ends in an empty
  paragraph counts as blank (BlankIsEmptyIffOneParagraph). Lists and other blocks that are not text
  do not count as content at all.
- **Standup jobs.** In a zone that skips a whole date, the fallback wait makes a job fire more than once
  for a date (MissingDateRefires), and so can a clock that goes back across midnight (TurningBackRefires);
  RefiresAnywhereIff says exactly when that can happen. Waking after midnight acts for the new date and
  again at its own trigger (SameDocumentIff, DocumentsRepeatIff).
- **Settings.** The two numbers of the Linear settings are cut to 32 bits on saving, but the route
  echoes them uncut (EchoIsLoadedIff).
- **Server-sent events.** A chunk boundary between CR and LF makes a blank line of one line ending
  (SplitCrLfTearsAnEvent); GroupsAgreeIff says exactly which boundaries change what is dispatched.
  Against section 9.2.6 of the WHATWG HTML Living Standard the reader drops all white space after the
  colon instead of one space, ignores known fields without a colon, takes ids with null characters and
  retry values that only start with a number; LineFollowsIff says exactly which lines mean the same to
  both.

## Model

| member | source | states |
|---|---|---|
| DebounceProtocol.Conservation | apps/integrations/linear/src/routes/webhook.rs:179-203 | in every interleaving of upserts, wake-ups, observed cancellations, takes and sends, the batches taken for a key followed by what is pending are exactly its accepted updates in acceptance order; each batch merges its own stretch only, and none is sent twice |
| DebounceTrace.NextStepIff | apps/integrations/linear/src/routes/webhook.rs:186-202 | after any run exactly those steps can come next that the list of steps alone allows: a task wakes, or observes a cancellation that did happen, once and after it was spawned, takes once it woke, and sends if it found an entry; a cancellation happens exactly when the entry of the timer is replaced or sent |
| DebounceTrace.ObservedCancelIsFinal | apps/integrations/linear/src/routes/webhook.rs:200-200 | a task that observed its cancellation never wakes, takes or sends, before or after, and no batch is its own |
| DebounceTrace.LifeCycle | apps/integrations/linear/src/routes/webhook.rs:193-202 | what a task does in any run is a beginning of one of two lives: spawned, woken, taken, sent; or spawned, cancelled |
| DebounceTrace.SentIff | apps/integrations/linear/src/routes/webhook.rs:195-199 | a batch is sent exactly if the task that took it has sent |
| DebounceTrace.TakeFindsPending | apps/integrations/linear/src/domain/debounce.rs:88-90 | a take empties the key and makes one batch of just the pending entry, and none where nothing is pending |
| DebounceTrace.EveryUpdateIsCarried | apps/integrations/linear/src/routes/webhook.rs:179-203 | Conservation against the upserts in the list of steps: batches and pending entry of a key together hold exactly the updates that came in for it, in order |
| DebounceTrace.StaleTimerTakesNewer | apps/integrations/linear/src/routes/webhook.rs:193-201 | for any two updates of a key there is a run in which the timer of the first, woken just before the second came in, takes both at once |
| DebounceProtocol.AllEndedMeansAllSent | apps/integrations/linear/src/routes/webhook.rs:191-202 | once every timer task has ended the map is empty, the batches of a key concatenate to all its accepted updates, and exactly the batches taken were sent |
| DebounceProtocol.InvHolds | apps/integrations/linear/src/domain/debounce.rs:41-90 | every pending entry is guarded by its own uncancelled, unfinished timer and holds exactly the updates not taken yet, also when a stale timer takes a newer entry |
| DebounceProtocol.SentInOrderIffNeverOvertakes | apps/integrations/linear/src/routes/webhook.rs:195-198 | the notifications of every key go out in acceptance order exactly when no send completes while an earlier batch of its key is still being sent |
| DebounceProtocol.SendsCanOvertake | apps/integrations/linear/src/routes/webhook.rs:186-202 | for any two updates of a key there is a run in which the second notification goes out before the first |
| DebounceProtocol.RunsAreBounded | apps/integrations/linear/src/routes/webhook.rs:193-201 | a run of n accepted updates takes at most 4 n further steps, so no timer task goes on for ever |
| DebounceProtocol.NothingStuck | apps/integrations/linear/src/routes/webhook.rs:193-201 | while some timer has not ended, a timer step is possible |
| DebounceProtocol.UpsertMatchesMap | apps/integrations/linear/src/domain/debounce.rs:41-86 | the protocol's upsert is the update that the class method is proved to make |
| DebounceProtocol.NotificationsSummarise | apps/integrations/linear/src/routes/webhook.rs:196-197 | each notification summarises its own stretch of updates in the sense of FoldSummarises |
| DebounceMerge.DebounceMap.Upsert | apps/integrations/linear/src/domain/debounce.rs:41-86 | the map afterwards is the old one with the update merged into its key; the replaced entry is cancelled, and the returned channel is new, unresolved and the stored one |
| DebounceMerge.DebounceMap.Take | apps/integrations/linear/src/domain/debounce.rs:88-90 | removes and returns exactly the key's entry and leaves all others |
| DebounceMerge.MergeAssociative | apps/integrations/linear/src/domain/debounce.rs:50-72 | merging is associative, whatever the change lists contain |
| DebounceMerge.FoldRegroups | apps/integrations/linear/src/domain/debounce.rs:50-72 | a window gives the same notification however it is split into earlier and later parts |
| DebounceMerge.FoldSummarises | apps/integrations/linear/src/domain/debounce.rs:50-72 | the merged update is the newest issue state, the OR of the flags, the latest e-mail and actor present and the first occurrences of all change lines; the last exactly when the first update repeats no line |
| DebounceMerge.SummaryLines | apps/integrations/linear/src/domain/debounce.rs:54-58 | the notification lists exactly the lines of the window, each once, in the order in which they first came up |
| DebounceMerge.ChangeLinesDistinct | apps/integrations/linear/src/source/changes.rs:9-54 | no update repeats a change line, so every real window meets the condition of FoldSummarises |
| DebounceMerge.ChangeLinesShow | apps/integrations/linear/src/source/changes.rs:20-51 | each line bears the label of its field, the old value before the arrow and the new one after it, with the names for what is missing or unreadable; the arrow is the first one unless the old value has one |
| DebounceMerge.BuildChangeFields | apps/integrations/linear/src/source/changes.rs:9-54 | the pushed lines are one for each field reported as changed, in the order status, priority, assignee, and none without a previous state |
| Supervisor.RunsAreExclusive | crates/larkstack/src/supervisor.rs:81-123 | in every run at most one run task of an app is live, the slot holds the state of the live generation only, and a dropped guard never erases the state of another generation |
| SupervisorTrace.NextStepIff | crates/larkstack/src/supervisor.rs:24-184 | after any run exactly those steps can come next that the list of steps alone allows, where the place in the loop, the progress of every run task, unread edits and the closing are read off that list |
| SupervisorTrace.GenerationsAre | crates/larkstack/src/supervisor.rs:39-94 | the generations are the successful builds; each has the key of the configuration that was live when the loop last began anew before it, and its run task is as far as its own steps took it |
| Supervisor.NeverSetNeverBuilt | crates/larkstack/src/supervisor.rs:168-174 | an app is never built nor run if neither the boot configuration nor an edit holds the boolean true under enabled in its section, whatever else they hold: no text that parses, no section, no field, another value |
| Supervisor.BuildsIffFlagSet | crates/larkstack/src/supervisor.rs:27-36 | beginning anew, the loop builds exactly if that flag is true in the configuration live at that moment, and from that configuration |
| Supervisor.ClosedMeansLeaving | crates/larkstack/src/supervisor.rs:106-108 | once the supervisor has seen the channel closed it only ends its generation and leaves |
| Supervisor.ClosedIsSeenLast | crates/larkstack/src/supervisor.rs:179-184 | it sees the channel closed only if it was closed and no edit is unread |
| Supervisor.RestAgreesWithConfig | crates/larkstack/src/supervisor.rs:24-66 | whenever the supervisor can take no step, the app is stopped and the live configuration does not say enabled = true, or it does and the app runs a generation built from the live change key, and the reported status says so |
| Supervisor.StaleGenerationEnds | crates/larkstack/src/supervisor.rs:96-121 | without a further edit, a generation whose key differs from the live one is driven only until the supervisor looks at the channel; everything it builds, runs or stops later is based on the live key |
| Supervisor.EditIsActedOn | crates/larkstack/src/supervisor.rs:24-121 | wherever the supervisor stood at the last edit, after at most five of its own steps it is stopped and disabled, builds from the live configuration, drives a generation with the live key, or leaves a closed channel; every generation with another key has then finished or is the one it awaits before leaving |
| Supervisor.NeverStuckBehind | crates/larkstack/src/supervisor.rs:24-121 | until then it can always take a step, or the run task it stops can |
| Supervisor.LeftBehindIsStopped | crates/larkstack/src/supervisor.rs:117-121 | a generation that is neither driven nor compared any more has finished or is cancelled and awaited |
| Supervisor.KeyPreservingEditsKeepGeneration | crates/larkstack/src/supervisor.rs:105-113 | edits that keep the key never end a generation, however many arrive and when |
| Supervisor.UnrelatedEditsNeverBounce | crates/larkstack/src/supervisor.rs:140-142 | editing another app's section, binding or unbinding the console's sign-in, and editing registry entries the app is not bound to never end its generation |
| Supervisor.RestartDelays | crates/larkstack/src/supervisor.rs:44-62 | a wait after the n-th failure in a row, counted along the steps, lasts as long as the n-th delay of the doubling back-off, up to a minute; a crashed run waits exactly one second however often it crashes |
| Supervisor.InvHolds | crates/larkstack/src/supervisor.rs:24-122 | exclusivity, slot ownership, agreement with the read configuration, pacing and status are kept by every step |
| Supervisor.CapReached | crates/larkstack/src/supervisor.rs:202-206 | from the seventh wait in a row on the doubling delay stays at a minute |
| Supervisor.StepMatchesClasses | crates/larkstack/src/supervisor.rs:44-62 | the back-off and the slot of the state machine move as the methods of the two classes below do |
| Supervisor.Backoff.Next | crates/larkstack/src/supervisor.rs:202-206 | returns the current delay and doubles it up to the cap |
| Supervisor.Backoff.Reset | crates/larkstack/src/supervisor.rs:198-200 | the next delay is one second again |
| Supervisor.StateSlot.Publish | crates/lark-kit/src/slot.rs:35-38 | the cell holds the new state |
| Supervisor.StateSlot.DropGuard | crates/lark-kit/src/slot.rs:42-45 | the cell is empty, whatever it held |
| Config.EqualKeysBuildAlike | apps/integrations/github/src/config.rs:55-82 | the reader of the whole configuration yields the same state, or fails on both, for configurations with equal change keys, exactly when both or neither registry deserialises or the section fails to build anyway |
| Config.BuiltIff | apps/integrations/github/src/config.rs:55-82 | a build succeeds exactly when the whole registry deserialises, the section does, and the entry it names is in the change key |
| Config.BuiltValues | apps/integrations/github/src/config.rs:63-81 | each credential of the built app is that of the section's own table if it is there, else that of the registered app the section names, else the environment's; there is a bot only with both credentials |
| Config.RegistryReadsIff | crates/larkstack-core/src/lark.rs:37-44 | the registry deserialises exactly if it is absent, or a table of tables whose three fields are strings where they are there |
| Config.SectionReadsIff | apps/integrations/github/src/config.rs:43-50 | the section deserialises exactly if it is absent, or a table whose known fields, its own credential table included, have their types |
| Config.BuiltFromKey | apps/integrations/github/src/config.rs:55-82 | successful builds from equal change keys yield equal states |
| Config.NoSuchAppIff | apps/integrations/github/src/config.rs:64-69 | a build ends with a missing reference exactly when everything deserialises and the named entry is not in the registry |
| Config.UnusedEntryCanFailBuild | apps/integrations/github/src/config.rs:36-42 | an ill-typed registry entry that the app does not use fails its build without moving its key |
| Config.FromToml | apps/integrations/github/src/config.rs:55-82 | the step-by-step overwriting of the environment values computes the reader that EqualKeysBuildAlike and BuiltIff are about |
| Config.ApplyLarkApp | crates/lark-kit/src/config.rs:64-68 | the registered app's credentials replace the environment's |
| Config.ApplyOverlay | crates/lark-kit/src/config.rs:71-90 | present fields win, absent ones keep what was there |
| Config.EnableMovesOnlyItsApp | crates/larkstack/src/routes/config.rs:102-109 | enabling or disabling an app leaves every other app's key alone on every document, exactly because it is not called lark-apps |
| Config.EnableMovesKeyIffNew | crates/larkstack/src/routes/config.rs:102-109 | the flag takes effect, and the app's own key moves exactly when the flag was not set that way before |
| Config.PutKeepsOtherKeys | crates/larkstack/src/supervisor.rs:149-166 | a write to another section that is not the registry leaves the app's key alone |
| Config.BindTakesEffect | crates/larkstack/src/routes/config.rs:171-186 | after binding, the app's key holds exactly the named registry entry, and no other app's key moves |
| Config.UpsertMovesBoundApps | crates/larkstack/src/routes/lark_apps.rs:255-271 | writing a registry entry moves the key of exactly the apps bound to it, and only if its value changes |
| Config.RemoveMovesBoundApps | crates/larkstack/src/routes/lark_apps.rs:273-282 | removing a registry entry moves the keys of exactly the apps bound to it |
| Config.RemoveUndoesUpsert | crates/larkstack/src/routes/lark_apps.rs:255-282 | removing a freshly added entry restores every entry of the registry, and the whole document exactly when it held no empty registry table |
| Config.ConsoleMovesNoApp | crates/larkstack/src/routes/console_auth.rs:155-199 | writing and removing the console's binding moves the key of no app, exactly because no app is called console |
| ConfigRoutes.ControlConfig.WriteDoc | crates/larkstack/src/routes/mod.rs:99-105 | the text reaches the live configuration exactly when the file write completes; a torn write leaves something else in the file only |
| ConfigRoutes.ControlConfig.SetAppEnabled | crates/larkstack/src/routes/config.rs:94-116 | live configuration, file and response are those of the request model that the theorems below are about |
| ConfigRoutes.ControlConfig.SetAppLarkApp | crates/larkstack/src/routes/config.rs:152-194 | the same; a name that is not registered is refused, a blank one clears the binding |
| ConfigRoutes.ControlConfig.UpsertLarkApp | crates/larkstack/src/routes/lark_apps.rs:65-93 | the same; bad names, missing credentials and failed credential tests are refused |
| ConfigRoutes.ControlConfig.DeleteLarkApp | crates/larkstack/src/routes/lark_apps.rs:107-118 | the same; a missing entry is reported |
| ConfigRoutes.ControlConfig.PutConsoleAuth | crates/larkstack/src/routes/console_auth.rs:113-143 | the same; only a registered app with credentials can be bound |
| ConfigRoutes.ControlConfig.DeleteConsoleAuth | crates/larkstack/src/routes/console_auth.rs:155-165 | the same; the binding goes only from a section that is a standard table |
| ConfigRoutes.ControlConfig.PutConfig | crates/larkstack/src/routes/config.rs:48-64 | the same; a text that is not TOML is refused |
| ConfigRoutes.FileAgreesAlways | crates/larkstack/src/routes/mod.rs:99-105 | without torn writes the file is the live configuration after every sequence of requests |
| ConfigRoutes.AgreesAfterIff | crates/larkstack/src/routes/mod.rs:99-105 | a request leaves file and live configuration in agreement exactly if its write completed, or tore leaving just the live text, or never started and they agreed before |
| ConfigRoutes.LastTouchDecides | crates/larkstack/src/routes/mod.rs:99-105 | after a sequence of requests they agree exactly if they did after the last write that touched the file |
| ConfigRoutes.BindingResolves | crates/larkstack/src/routes/console_auth.rs:121-142 | after an accepted binding the console asks for sign-in with just the bound app |
| ConfigRoutes.OpensIff | crates/larkstack/src/routes/oauth.rs:80-86 | exactly which accepted requests open a console that asks for sign-in: unbinding a standard table, deleting the bound entry, rebinding an app called console, writing into an app called lark-apps, and a text that does not resolve |
| ConfigRoutes.StaysClosedIff | crates/larkstack/src/routes/oauth.rs:80-86 | over every sequence of requests the console asks for sign-in throughout exactly if none of them is one of those where it is served |
| ConfigRoutes.StrandsIff | crates/larkstack/src/routes/config.rs:165-173 | exactly which accepted requests leave an app with a reference to nothing: deleting the entry it is bound to, clearing the binding of an app called lark-apps, and a text that does |
| ConfigRoutes.BoundAppBuilds | crates/larkstack/src/routes/config.rs:165-186 | after an accepted binding the app's next build does not fail for a missing entry |
| ConfigRoutes.DeletedEntryFailsBuild | crates/larkstack/src/routes/lark_apps.rs:95-118 | deleting the entry that the github app is bound to makes its next build fail for just that name |
| ConfigRoutes.WriteConsole | crates/larkstack/src/routes/console_auth.rs:170-199 | the edited document has the binding, the trimmed administrators that are not blank, and the optional fields set or cleared |
| RequestMeaning.AcceptedIff | crates/larkstack/src/routes/config.rs:94-109 | of all seven requests: one is accepted exactly if what it brings along is in order, what it names exists, the live text is TOML, and the section it edits is absent or a standard table |
| RequestMeaning.RefusalIs | crates/larkstack/src/routes/lark_apps.rs:107-118 | which answer a refused request gets: unknown apps and entries are not found, a live text that is not TOML is an internal error, a section that is no table panics two handlers, and everything else is a bad request |
| RequestMeaning.EditIs | crates/larkstack/src/routes/config.rs:102-109 | an accepted edit gives every field of the document what the request says about it, and leaves every other field of every section as it was |
| RequestMeaning.UpsertReadsBack | crates/larkstack/src/routes/lark_apps.rs:255-288 | the entry of an accepted upsert reads back with the credentials given and the trimmed address, or the default one for a blank address |
| RequestMeaning.ResolvesIff | crates/larkstack/src/routes/oauth.rs:80-86 | the console asks for sign-in exactly if its section names an app, both sections deserialise, and both credentials of that app are there and not empty |
| RequestMeaning.LastLandedIsLive | crates/larkstack/src/routes/mod.rs:99-105 | after any sequence of requests the live configuration is the text of the last one that was accepted and written |
| Config.AdminsMeaning | crates/larkstack/src/routes/console_auth.rs:183-187 | wherever it stands in the list, an administrator is kept, trimmed and in its place, unless blank |
| EventStream.NoEventTwice | crates/larkstack/src/routes/events.rs:80-123 | whatever the interleaving and whoever lags: the replayed ids ascend, every live id exceeds all of them, and no id reaches a client twice |
| EventStream.CompleteIff | crates/larkstack/src/routes/events.rs:89-109 | the stream is exactly all events after the last-seen id, once and in order, if and only if at most 200 of them exist in the store alone and the id is not beyond everything stored while later broadcasts are below it |
| EventStream.ReconnectIsComplete | crates/larkstack/src/routes/events.rs:80-123 | CompleteIff for every reachable state in which the counter resumed, ids were broadcast in order, the client has caught up without lagging and the store held what the persister had read |
| EventStream.ReconnectMisses | crates/larkstack/src/routes/events.rs:80-123 | for ids broadcast in any order and any state of the store, in every run: a client that has caught up without lagging misses exactly the stored events beyond its replay that were not broadcast after its subscription, and the events not in the table it read that were broadcast before the subscription only or are not above its last replayed id; it gets an event not after its last-seen id exactly if nothing was replayed and that event was broadcast after the subscription |
| EventStream.MissesIff | crates/larkstack-core/src/store.rs:79-92 | the same for one connection, and that a stored event is missed only when the replay was cut at 200 |
| EventStream.ReconnectFromHugeIdIff | crates/larkstack-core/src/store.rs:79-92 | a client whose last-seen id is 2^63 or more, which turns negative in the query, gets the nothing it should exactly if the table it could read was empty and every broadcast it followed was lost to lag; without lags, exactly as long as it has followed none |
| EventStream.FirstConnectionHasNoGap | crates/larkstack/src/routes/events.rs:89-93 | in order, a client that connects without an id receives everything from its first event on without a gap |
| EventStream.FirstConnectionMisses | crates/larkstack/src/routes/events.rs:89-109 | in every run, a client that connected without an id and has caught up without lagging misses an event of the table it read exactly if 200 newer ones were replayed and it was not broadcast later above them, and any other event exactly if it was not broadcast after the subscription above everything replayed |
| EventStream.RetentionWindow | crates/larkstack/src/lib.rs:164-176 | over every sequence of boots, emissions, persists, lags and crashes and every outcome of every query: the table is exactly the ever-stored ids above max - 10000 once no trim is outstanding, has at most 10000 rows plus one for each trim outstanding along the steps, and its maximum is the all-time one; where the counter resumed, an id about to be stored was never stored before |
| EventStream.ReuseIff | crates/larkstack/src/lib.rs:167-170 | after a boot some course of that life stores an id again exactly if the query for the highest id failed on a table that was not empty |
| EventStream.StepMatchesStore | crates/larkstack-core/src/store.rs:50-76 | the table of the state machine moves as the method Persist does |
| EventStream.MaxNeverDecreases | crates/larkstack-core/src/store.rs:50-76 | nothing once stored is forgotten as a maximum: the stored maximum never decreases |
| EventTrace.BootResumesAt | crates/larkstack/src/lib.rs:167-170 | a boot hands out ids from right after the highest id ever stored, and from 1 if there is none or the query fails |
| EventTrace.IdsAreConsecutive | crates/larkstack-core/src/lib.rs:156-158 | within a life the ids handed out follow one another without a gap |
| EventTrace.BroadcastsAre | crates/larkstack-core/src/lib.rs:151-154 | within a life the broadcasts are what was emitted, in that order |
| EventTrace.PersisterPasses | crates/larkstack/src/lib.rs:309-327 | the persister has read or lost as many broadcasts as its steps say |
| EventTrace.PersistStores | crates/larkstack/src/lib.rs:313-319 | the persister stores the broadcast it is at exactly if the database takes it, and goes on either way |
| EventTrace.Subscription | crates/larkstack/src/routes/events.rs:80-80 | a subscription starts at the end of the broadcast at that moment, whatever happens before the query |
| EventTrace.Connection | crates/larkstack/src/routes/events.rs:89-121 | the replay is read from the table as it is at the moment of the query, and from then on the client has followed the broadcast from its subscription by as many events as it received or lost |
| EventStream.InvHolds | crates/larkstack-core/src/lib.rs:151-164 | ids of a boot are broadcast at most once each, and are new where the counter resumed beyond everything stored; the table is explained by what was ever stored and trimmed, after every run |
| EventStream.ClientFitsAlways | crates/larkstack/src/routes/events.rs:104-121 | in every run the live part stems from the broadcasts followed, and is all of them above the replayed ones if none was missed |
| EventStream.PersistRetains | crates/larkstack-core/src/store.rs:50-76 | one insert with its trim keeps the retention window, also for ids that arrive out of order |
| EventStore.Store.Persist | crates/larkstack-core/src/store.rs:50-76 | a row with the same id makes the insert fail and changes nothing; otherwise the row is added and exactly the rows at or below max - 10000 go, or none if the trim fails |
| EventStore.SinceIsPrefix | crates/larkstack-core/src/store.rs:79-92 | what the capped query leaves out, of the ids after the signed number it compares with, lies beyond everything it returns |
| EventStore.SinceQueryIff | crates/larkstack-core/src/store.rs:79-92 | the query with its cast to a signed number gives the events after the id exactly if the id is below 2^63 or there are no events |
| EventStore.RecentIsSuffix | crates/larkstack-core/src/store.rs:95-112 | the rows returned are all rows from the first of them on |
| EventStore.RecentIsNewest | crates/larkstack-core/src/store.rs:95-112 | a row left out is older than every row returned, and only an answer of as many rows as asked for leaves any out |
| EventStore.RecentIsSince | crates/larkstack-core/src/store.rs:79-112 | the most recent rows are what a client that had seen the id before them would be given |
| EventStore.KeptAtMostCap | crates/larkstack-core/src/store.rs:26-26 | a trimmed table has at most 10000 rows |
| Reminders.DeadlineRemindedExactly | apps/integrations/linear/src/scheduler.rs:52-105 | for every cadence the settings can hold, with steady settings, a working database and the deadline seen at least daily from first sight until past the cap by a pass whose window exists, the reminders sent for it are exactly the smallest lead not below the first distance, every lead below it and every overdue day to the cap, each once, in descending order, whatever other issues are around |
| ReminderLog.HistoryFires | apps/integrations/linear/src/scheduler.rs:81-103 | over every history, with settings, dates, issues and database failures at will, the reminders sent are those of a reference without a ledger: each look at an issue to which a tier applies sends, if the lookup works and no reminder for that deadline and tier was sent and recorded before; the ledger holds exactly what was recorded |
| ReminderLog.SentStems | apps/integrations/linear/src/scheduler.rs:81-96 | every reminder ever sent is about an issue some round fetched, states the days between the date of that round and the due date, and carries the tier that applies to them |
| ReminderTiming.LooksDailyIff | apps/integrations/linear/src/scheduler.rs:29-49 | passes at most a given time apart look at every date of the time zone, however they fall, exactly if no whole date fits between two of them |
| ReminderTiming.ShortIntervalsLookDaily | apps/integrations/linear/src/scheduler.rs:41-45 | an interval that with its delays and what the wall clock may gain stays within 24 hours has a pass on every date |
| ReminderTiming.SpacedPassesRemindExactly | apps/integrations/linear/src/scheduler.rs:29-105 | DeadlineRemindedExactly from the times of the passes: where no date fits between two passes and dates never go back, a deadline present at every pass is sent exactly the expected tiers, in decreasing order |
| Reminders.ExactTiers | apps/integrations/linear/src/domain/reminders.rs:34-47 | the same for the tiers that fire over a list of distances |
| Reminders.DeadlineHistory | apps/integrations/linear/src/scheduler.rs:52-105 | for every cadence the settings can hold, the scheduler reminds of a deadline exactly what firing its distances at the passes that did not panic gives: other issues, the query window and the order of a fetch make no difference |
| Reminders.RepeatedOnlyIfUnrecorded | apps/integrations/linear/src/scheduler.rs:92-102 | over every history, with settings, dates, issues and database failures at will, a reminder is repeated for a deadline and tier only if recording the earlier one failed |
| Reminders.TiersStrictlyDecrease | apps/integrations/linear/src/scheduler.rs:81-103 | with dates that never go back the tiers sent for a deadline strictly decrease, however irregular the passes |
| Reminders.RemindersBounded | apps/integrations/linear/src/scheduler.rs:81-103 | a deadline gets at most one reminder for each distinct lead and each overdue day to the cap |
| Reminders.TierMonotone | apps/integrations/linear/src/domain/reminders.rs:34-47 | closer to the deadline the applicable tier is never a higher one |
| Reminders.TierInsideWindow | apps/integrations/linear/src/scheduler.rs:58-70 | every issue with an applicable tier is due inside the queried window, so it is found whenever the window exists, and then its due date is a date |
| Reminders.WindowExistsOnIff | apps/integrations/linear/src/scheduler.rs:65-70 | a cadence can be used on every date of a period exactly when the cap reaches back from its first date and the longest lead forward from its last without leaving the calendar |
| Reminders.RunningPassIsInRange | apps/integrations/linear/src/domain/reminders.rs:34-47 | in a pass that gets past its window no lead and no overdue day is cut by the 32-bit tier |
| Reminders.TiersClashIff | apps/integrations/linear/src/domain/reminders.rs:34-42 | two leads share a tier exactly when they agree in 32 bits, and so never in a pass that runs |
| Reminders.RemindersDescend | apps/integrations/linear/src/scheduler.rs:81-103 | for every cadence the settings can hold and irregular passes, the reminders actually sent for a deadline strictly decrease and are bounded by the distinct leads plus the cap |
| Reminders.NoWindowNoReminders | apps/integrations/linear/src/scheduler.rs:65-70 | if no pass has a window, nothing is ever recorded or sent |
| Reminders.HugeCadenceSilences | apps/integrations/linear/src/scheduler.rs:65-70 | a cap or a lead longer than the calendar silences every reminder for good |
| Reminders.SmallestLead | apps/integrations/linear/src/domain/reminders.rs:34-41 | the least non-negative lead that is at least the distance, and none exactly if there is no such lead |
| Reminders.RunPass | apps/integrations/linear/src/scheduler.rs:52-105 | a pass whose window leaves the calendar panics and changes nothing; any other leaves the ledger and sends the reminders of the specification that HistoryFires ties to a reference without a ledger, for every outcome of each lookup and insert |
| Reminders.Ledger.AlreadySent | apps/integrations/linear/src/db/due_reminders/mod.rs:23-40 | a recorded tier counts as sent, and so does a failing lookup |
| Reminders.Ledger.Record | apps/integrations/linear/src/db/due_reminders/mod.rs:42-57 | the row is added, unless the database refuses or it is there already |
| ReminderRecipients.SendReminder | apps/integrations/linear/src/scheduler.rs:109-133 | the addresses are the overrides of the sorted, deduplicated Linear addresses |
| ReminderRecipients.AddresseesMeaning | apps/integrations/linear/src/scheduler.rs:112-126 | exactly the assignee and, where configured, the active subscribers, as far as they have an address, each once |
| ReminderRecipients.RemindersGoTo | apps/integrations/linear/src/scheduler.rs:128-132 | each reminder goes to the override of its address if there is one, and to that very address otherwise |
| ReminderRecipients.DedupOfSorted | apps/integrations/linear/src/scheduler.rs:125-126 | removing equal neighbours after sorting leaves no repeat at all |
| ReminderRecipients.RemindedOnceIff | apps/integrations/linear/src/scheduler.rs:128-132 | nobody is sent the reminder twice exactly when no two of the addresses are overridden to the same one, since repeats are removed before the overrides apply |
| ReminderRecipients.OverridesCanCollide | apps/integrations/linear/src/scheduler.rs:109-133 | for any assignee and active subscriber with different addresses, overriding both to one sends the reminder there more than once |
| ReminderRecipients.NotifySubscribers | apps/integrations/linear/src/routes/webhook.rs:254-281 | the loop yields the list that NotifiedMeaning describes |
| ReminderRecipients.NotifiedMeaning | apps/integrations/linear/src/routes/webhook.rs:271-277 | one message for each active subscriber with an address other than the actor, in their order, to its resolved address, and no other |
| Migrations.CommittedOnce | crates/larkstack-core/src/db.rs:84-161 | from any database, a fresh one included, over every sequence of startups with any failures, each (app, migration) commits at most once and a tracking row exists exactly when its migration committed: for a pool of migrations this holds if and only if none of them touches the tracking rows |
| Migrations.Untracked | crates/larkstack-core/src/db.rs:153-159 | a migration that does touch them breaks the tracking in one startup |
| Migrations.OnlyCommitsMatter | crates/larkstack-core/src/db.rs:126-161 | after any startups from any database it is what replaying just the committed migrations in order makes of it |
| Migrations.FailureIsFinal | crates/larkstack-core/src/db.rs:89-100 | after a failure nothing later runs |
| Migrations.RunOkIff | crates/larkstack-core/src/db.rs:89-101 | a run succeeds exactly if every migration, in the database that those before it left, is already tracked or succeeds: it runs, keeps to the namespace, leaves the tracking table without its row, and commits |
| Migrations.FirstFailureEndsRun | crates/larkstack-core/src/db.rs:95-97 | the first migration that does not ends the run with an error: database and commits are those of the migrations before it, whatever comes later in the list |
| Migrations.OkMeansAllDone | crates/larkstack-core/src/db.rs:89-101 | after a run that succeeds each migration was tracked when it was reached or is among the commits |
| Migrations.CommittedIff | crates/larkstack-core/src/db.rs:126-161 | a commit leaves the tables as the migration left them, and adds its own tracking row and no other |
| Migrations.FailedRunIsItsCommits | crates/larkstack-core/src/db.rs:89-100 | a failed run leaves the database as the migrations before the failing one left it, which is what replaying its commits makes |
| Migrations.NamespacesIsolated | crates/larkstack-core/src/db.rs:134-151 | runs of app a never create or drop a table in b's namespace, whatever the migrations do, exactly when neither prefix starts with the other and none of b's names can be a framework table's |
| Migrations.CommonExtension | crates/larkstack-core/src/db.rs:40-45 | a table name with both prefixes exists exactly when one prefix starts with the other |
| Migrations.AppDatabase.ApplyOne | crates/larkstack-core/src/db.rs:126-161 | on any failure the database is as before; otherwise it is the migrated one with its tracking row |
| Migrations.AppDatabase.RunMigrations | crates/larkstack-core/src/db.rs:84-101 | outcome, database and the commits it logs are those of the specification, for every outcome of each statement |
| Routing.DestinationsFor | crates/lark-kit/src/routing/matcher.rs:10-31 | the loop with its flag computes the specification of the routed destinations |
| Routing.DeliveredIff | crates/lark-kit/src/routing/matcher.rs:10-31 | a destination is delivered to exactly if some rule matching subject and event has it, or no rule matches the subject and it is a default |
| Routing.MatchesIff | crates/lark-kit/src/routing/matcher.rs:42-50 | a pattern matches exactly if it is the star, the subject itself, or a namespace pattern whose base's segments start the subject's |
| Routing.DeliveryOrder | crates/lark-kit/src/routing/matcher.rs:10-39 | delivery goes to each candidate once, in the order in which rules or defaults first name them |
| Routing.RoutedMembers | crates/lark-kit/src/routing/matcher.rs:10-31 | routed destinations are those of the rules that match subject and event |
| Routing.RuleOrderIrrelevant | crates/lark-kit/src/routing/matcher.rs:10-39 | each destination once, and the same destinations in the same number for every permutation of the rules |
| Routing.NamespaceMatchesSegments | crates/lark-kit/src/routing/matcher.rs:42-50 | a namespace pattern matches exactly when its base's segments are a prefix of the subject's |
| StandupTable.ReadsBackTheMembers | apps/automations/standup/src/lark/doc.rs:77-225 | filling a fresh table and reading it after any edits of its content cells returns exactly the members whose content cells are blank, in the order they were written |
| StandupTable.WritesAreDistinct | apps/automations/standup/src/lark/doc.rs:119-163 | header and name writes hit pairwise distinct text blocks |
| StandupTable.NameReadBack | apps/automations/standup/src/lark/doc.rs:147-163 | the name of every row is read back, whatever was edited in content cells |
| StandupTable.RequestsOkIff | apps/automations/standup/src/lark/doc.rs:102-163 | exactly when the table can be filled: a table with the expected number of cells, and a text block for every header that is not empty and every name |
| StandupTable.PopulateStandupTable | apps/automations/standup/src/lark/doc.rs:101-163 | the loops with their early errors build the specified requests |
| StandupTable.FindMissingUserIds | apps/automations/standup/src/lark/doc.rs:176-225 | the scan of the rows computes the specified members |
| StandupTable.CellTextMap | apps/automations/standup/src/lark/doc.rs:237-260 | a cell is mapped exactly if a text block lies in it, and to the last one |
| StandupTable.LastParagraphDecides | apps/automations/standup/src/lark/doc.rs:210-219 | a cell counts as blank exactly when it has no paragraph or its last one is empty |
| StandupTable.BlankIsEmptyIffOneParagraph | apps/automations/standup/src/lark/doc.rs:253-257 | counting as blank agrees with all paragraphs being empty, for every content, exactly when the cell has at most one paragraph |
| StandupTable.CellTextInjective | apps/automations/standup/src/lark/doc.rs:237-260 | two cells never share a text block |
| StandupCells.MissingMeaning | apps/automations/standup/src/lark/doc.rs:176-225 | of any document: reading fails exactly without a table of full rows; otherwise the missing are, one for each and in order, the users named in the rows below the header whose content cells are blank |
| StandupCells.CellTextIs | apps/automations/standup/src/lark/doc.rs:237-260 | only a cell block has a text, and it is the last paragraph directly below it |
| StandupCells.TableIsFirst | apps/automations/standup/src/lark/doc.rs:181-184 | the table is the first block of its kind, and there is none exactly if no block is |
| StandupCells.MentionIsFirst | apps/automations/standup/src/lark/doc.rs:262-270 | the user a text names is its first mention |
| StandupCells.TextIsEmptyIff | apps/automations/standup/src/lark/doc.rs:272-288 | a text is empty exactly if all its elements are text runs of white space: a mention is content |
| StandupCells.HeaderReadBack | apps/automations/standup/src/lark/doc.rs:121-146 | after the writes each header cell holds just its header |
| StandupCells.OthersStay | apps/automations/standup/src/lark/doc.rs:127-163 | a block that no request names is left alone |
| StandupSchedule.DurationUntil | apps/automations/standup/src/trigger/scheduler.rs:159-166 | the wait ends at the aimed-at trigger if that is not past, and is 60 seconds otherwise |
| StandupSchedule.WaitIsPositiveIff | apps/automations/standup/src/trigger/scheduler.rs:159-166 | the wait is positive and ends at a trigger exactly when today's or tomorrow's trigger instant is ahead |
| StandupSchedule.OrdinaryZonesAreSafe | apps/automations/standup/src/trigger/scheduler.rs:171-179 | where dates never go back and gaps last at most an hour, tomorrow's trigger follows every instant of today, daylight-saving gaps and overlaps included |
| StandupSchedule.SafeZonesNeverAimBack | apps/automations/standup/src/trigger/scheduler.rs:159-166 | where tomorrow's trigger follows today no computation aims at a past trigger |
| StandupSchedule.TriggerFallsOnDate | apps/automations/standup/src/trigger/scheduler.rs:168-179 | the trigger of a date falls on that date, or on the next one, and that only in a gap at 23 hours |
| StandupSchedule.TriggerShowsTime | apps/automations/standup/src/trigger/scheduler.rs:171-179 | where gaps last at most an hour, the wall clock shows the configured hour and minute of the date at the trigger, or exactly an hour more where that time is missing |
| StandupSchedule.TriggerIsEarliest | apps/automations/standup/src/trigger/scheduler.rs:171-179 | no instant that shows the configured time of the date is before the trigger |
| StandupSchedule.FiresOncePerDate | apps/automations/standup/src/trigger/scheduler.rs:112-155 | with unchanged settings and sleeps that never end early a job never fires twice for a trigger date, if no computation aims back |
| StandupSchedule.FiresEveryDate | apps/automations/standup/src/trigger/scheduler.rs:112-155 | if each round is over before the date of its trigger is, no date is left out |
| StandupSchedule.RefiresIff | apps/automations/standup/src/trigger/scheduler.rs:112-166 | where dates never go back, some run of whatever length fires twice for a date exactly when the fallback branch can be taken with a short round of the date left, or a trigger strikes with five seconds left of the date before its own |
| StandupSchedule.RefiresAnywhereIff | apps/automations/standup/src/trigger/scheduler.rs:112-166 | in every zone, also where the clock goes back across midnight, some run fires twice for a date exactly when the evening of the date before, from its own trigger on, still lasts five seconds after the date's trigger and that trigger could be awaited, or lasts a whole short round beyond it |
| StandupSchedule.RefiringFallsBack | apps/automations/standup/src/trigger/scheduler.rs:165-165 | in every zone, a round that fires again for a date took the fallback branch |
| StandupSchedule.AimingBackRefires | apps/automations/standup/src/trigger/scheduler.rs:165-165 | aiming back at a past trigger, and still a short round later, fires twice for a date |
| StandupSchedule.MissingDateRefires | apps/automations/standup/src/trigger/scheduler.rs:165-178 | in a zone that skipped a whole date a midnight job fires twice for one date |
| StandupSchedule.TurningBackRefires | apps/automations/standup/src/trigger/scheduler.rs:159-166 | a clock that goes back from 00:01 to 23:01 is such a zone: a run of the midnight job fires twice for one date |
| StandupSchedule.SameDocumentIff | apps/automations/standup/src/trigger/scheduler.rs:122-139 | two rounds act for the same date exactly when the first overslept, the second was computed on that later date but before its trigger, and did not oversleep itself |
| StandupSchedule.PunctualDocumentsAreDistinct | apps/automations/standup/src/trigger/scheduler.rs:122-139 | a run in which every round wakes on its trigger's date acts for pairwise distinct dates, namely the trigger dates |
| StandupSchedule.DocumentsRepeatIff | apps/automations/standup/src/trigger/scheduler.rs:112-155 | a whole run acts twice for some date exactly when some round repeats the one before in the sense of SameDocumentIff |
| StandupSchedule.OversleepingRepeatsADocument | apps/automations/standup/src/trigger/scheduler.rs:135-139 | a run in which oversleeping past midnight makes the job act twice for one date |
| LinearSettings.LeadDaysRoundTrip | apps/integrations/linear/src/db/settings/mod.rs:101-152 | reading back the printed list keeps exactly its non-negative days in order, for every list of 64-bit numbers |
| LinearSettings.LeadDaysRoundTripIff | apps/integrations/linear/src/db/settings/mod.rs:101-152 | the round trip is the identity exactly on lists of non-negative days, the empty one included |
| LinearSettings.LeadDaysPieceByPiece | apps/integrations/linear/src/db/settings/mod.rs:147-152 | whatever the column holds, each piece between commas counts on its own: a non-negative number with or without white space around it is kept in its place, anything else is dropped |
| LinearSettings.SaveLoadIff | apps/integrations/linear/src/db/settings/mod.rs:86-144 | loading what was saved gives it back exactly when leads are non-negative and the two numbers fit 32 bits and make sense |
| LinearSettings.LoadedIsSane | apps/integrations/linear/src/db/settings/mod.rs:87-99 | whatever the row holds, the app acts on non-negative leads, a cap within 0 and 2^31 - 1 and a positive interval within 32 bits; whether the scheduler can use them is Reminders.WindowExistsOnIff |
| LinearSettings.AcceptedSettingsCanSilence | apps/integrations/linear/src/db/settings/routes.rs:62-94 | the route accepts, the row stores and the app loads caps and leads under which no reminder is ever sent |
| LinearSettings.EchoIsLoadedIff | apps/integrations/linear/src/db/settings/routes.rs:75-94 | what the route echoes is what the app then acts on exactly when both numbers fit 32 bits |
| LinearSettings.EchoIsBodyIff | apps/integrations/linear/src/db/settings/routes.rs:75-94 | the echo is the body itself exactly if no lead and no cap in it is negative |
| LinearSettings.SettingsTable.Put | apps/integrations/linear/src/db/settings/routes.rs:54-95 | refused bodies and failing saves change nothing; otherwise the row is replaced, and the echo is what is loaded exactly when both numbers fit 32 bits |
| Integers.ParsePrint | apps/integrations/linear/src/db/settings/mod.rs:101-152 | parsing undoes printing within the range of the type |
| Integers.ParseMeaning | apps/integrations/linear/src/db/settings/mod.rs:149-149 | digits parse to their value, on their own or after a sign, a minus sign for signed types only, and only within the range |
| Integers.NothingElseParses | apps/integrations/linear/src/db/settings/mod.rs:149-149 | nothing else parses |
| Integers.AsI32KeepsLowBits | apps/integrations/linear/src/db/settings/mod.rs:133-134 | the narrowing cast differs from the number by a multiple of 2^32 |
| StandupSettings.TimeRoundTripIff | apps/automations/standup/src/settings/mod.rs:80-82 | printing a time and parsing it is the identity exactly on the times of a day |
| StandupSettings.TimeMeaning | apps/automations/standup/src/settings/mod.rs:269-277 | two numbers below 24 and 60 around the first colon, with or without white space around each, are that time; anything else is midnight |
| StandupSettings.CheckedIffDecoded | apps/automations/standup/src/settings/routes.rs:54-63 | the route accepts exactly the times the decoder understands that carry no white space, and then decodes them to the same pair |
| StandupSettings.AcceptsIff | apps/automations/standup/src/settings/routes.rs:28-44 | the route accepts exactly the forms of which nothing is replaced by a default and whose times carry no white space |
| StandupSettings.AcceptedTakesEffect | apps/automations/standup/src/settings/routes.rs:28-50 | zone, times, flags, positive widths and texts of an accepted form are what the app acts on |
| StandupSettings.NormalisationIsIdempotent | apps/automations/standup/src/settings/mod.rs:158-287 | decoding, printing and decoding again changes nothing, however malformed the form |
| StandupSettings.EchoIsAcceptable | apps/automations/standup/src/settings/routes.rs:49-50 | the echoed form is always accepted if sent back |
| StandupSettings.NormalizeMeaning | apps/automations/standup/src/settings/mod.rs:280-287 | normalised widths are positive, never empty and stable under normalising, and are the positive ones given exactly if there is any |
| StandupSettings.SettingsBlob.Put | apps/automations/standup/src/settings/routes.rs:24-51 | the first failing check decides the rejection; rejected forms and failing saves change nothing; otherwise the form is stored and its normalised view echoed |
| SseChunking.ReaderEqualsLineReader | dashboard/src/sdk/core/serverSentEvents.gen.ts:142-217 | for any chunking in which no boundary tears a group of lines in the sense of GroupsAgreeIff, those that split no CR LF included, the reader yields the events, and keeps the last id and retry delay, of a reader that goes through the stream once, character by character, and dispatches at blank lines |
| SseChunking.GroupsAgreeIff | dashboard/src/sdk/core/serverSentEvents.gen.ts:155-165 | for every chunking, the reader finds the groups of lines of the stream if and only if no chunk boundary lies inside a CR LF that ends a line which is not blank and is not followed by a blank line |
| SseChunking.ReaderForgets | dashboard/src/sdk/core/serverSentEvents.gen.ts:157-159 | scanning what the reader reads is scanning the stream and forgetting at each chunk boundary that a CR came before |
| SseChunking.KeptCrLfTearsNothing | dashboard/src/sdk/core/serverSentEvents.gen.ts:157-159 | a boundary that keeps every CR LF together tears nothing |
| SseReader.ChunkingIsIrrelevant | dashboard/src/sdk/core/serverSentEvents.gen.ts:155-162 | two chunkings of the same stream that split no CR LF give the same buffer, events, last id and retry delay |
| SseReader.LfOnlyChunkingIsIrrelevant | dashboard/src/sdk/core/serverSentEvents.gen.ts:155-162 | for streams without CR every chunking does |
| SseReader.ChunksEqualWhole | dashboard/src/sdk/core/serverSentEvents.gen.ts:155-164 | whatever the chunks, reading them equals cutting the text of all normalised chunks once |
| SseReader.NormalizeEachIff | dashboard/src/sdk/core/serverSentEvents.gen.ts:158-159 | the reader's text is the normalised stream exactly when no cut splits a CR LF, and too long otherwise |
| SseReader.SplitCrLfTearsAnEvent | dashboard/src/sdk/core/serverSentEvents.gen.ts:158-162 | for any two lines of an event, a chunk boundary inside the CR LF between them makes two events of it |
| SseReader.SplitResumes | dashboard/src/sdk/core/serverSentEvents.gen.ts:161-162 | cutting at blank lines can stop anywhere and resume from the unfinished piece |
| SseReader.ScanFindsTheBlocks | dashboard/src/sdk/core/serverSentEvents.gen.ts:161-165 | cutting and scanning by character find the same groups of lines |
| SseReader.FieldValueIff | dashboard/src/sdk/core/serverSentEvents.gen.ts:170-177 | a field value is the standard's exactly when no further white space follows the one dropped space |
| SseReader.LineFollowsIff | dashboard/src/sdk/core/serverSentEvents.gen.ts:169-182 | a line means to the reader what it means by the standard, whatever came before, exactly if a known field has its colon, no further white space leads its value, an id holds no null character, and a retry is digits only, or does not start, after white space and an optional sign, with a digit |
| SseReader.ParseIntIff | dashboard/src/sdk/core/serverSentEvents.gen.ts:178-182 | the reader finds a number in a retry value exactly where a digit stands after white space and an optional sign |
| SseFields.EventSays | dashboard/src/sdk/core/serverSentEvents.gen.ts:164-216 | every block makes one event: with data exactly if it has a data line, the last event name if any, the last id or else the one before, and the last of the numbers of its retry lines or else the delay before |
| SseFields.DataSplits | dashboard/src/sdk/core/serverSentEvents.gen.ts:170-188 | the data splits at line feeds into just the values of the data lines, in order |
| SseFields.NumberIs | dashboard/src/sdk/core/serverSentEvents.gen.ts:177-177 | white space, a sign and digits give that number whatever follows the digits |
| SseReader.Reader.Read | dashboard/src/sdk/core/serverSentEvents.gen.ts:158-216 | the nested loops over pieces and lines leave the buffer, last id, retry delay and events of the specification |

## Left out

- Network calls to Lark, Linear, GitHub, GitLab, X and Whisper, ffmpeg and WebSocket clients: sends are entries of a log, and answers are parameters.
- The React dashboard, the generated SDK except its event reader, themes and styles: no invariants.
- Card builders, templates, OpenAPI, tracing visitors, asset serving: formatting only.
- Signatures, encryption, cookies and the OAuth handshake: they rest on opaque primitives.
- SQLite, sea-orm, toml_edit, serde, chrono and tokio internals: maps, sets, trees, day numbers and atomic steps with the semantics the code relies on; comments in the configuration are not kept.
- Concurrent configuration requests: handlers read, edit and write without a lock, so requests are one after another in the model.
- Action dispatch and the action loop after its abort: the code does not wait for it, and nothing is claimed about it.
- Reading the configuration back from a file changed by hand between two runs of the host; texts are compared as documents, so layout and comments do not count.
- Config.FromToml: serde also accepts positional arrays in place of tables; the model rejects them, here and in the console's own section.
- EventStream.RetentionWindow: ids are unbounded naturals, so the wrap of the 64-bit counter, and ids beyond 2^63 turning negative in the table, are not modelled.
- EventStore.Store.Persist: insert and trim are one step for readers, as the connection's mutex makes them.
- EventStream.ReconnectIsComplete: assumes that ids were broadcast in order, which threads that fetch an id and then emit do not guarantee; ReconnectMisses is without that assumption.
- The notice a lagging client is sent carries no id and is counted, not delivered, in the model.
- Reminders.DeadlineHistory: the fetch is taken to return what the queried window says.
- Reminders.RunPass: one scheduler task, and a failed fetch counts as one without issues; of the loop around it only the times of its passes are modelled (ReminderTiming), with a bound on how late they are.
- StandupSchedule.FiresOncePerDate: settings do not change between computing a wait and firing, the job stays enabled, and cancellation ends a run early at any point.
- StandupSchedule.RefiresIff: zones whose clock goes back across midnight are covered by RefiresAnywhereIff and not here.
- StandupTable.ReadsBackTheMembers: the document service is taken to replace the elements of the named blocks; edits keep tables, cells and text outside the content cells.
- Column widths of the standup table, document titles and finding an existing document.
- Partial wire forms of the standup settings, whose missing fields take defaults during deserialisation.
- SseChunking.ReaderEqualsLineReader: compares the yielded events; the event callback is also called for blocks without data, whose number is not compared.
- SseReader.Reader.Read: decoding JSON, validators, transformers, reconnecting and its waits, and numbers beyond 2^53 in `retry`.
- issue_to_notification and the webhook's choice of event kinds: field-by-field copies.
- Event levels, timestamps and metrics: pure mappings.
