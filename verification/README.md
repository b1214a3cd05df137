# Aurora gateway: verified models of its stateful parts

A Dafny model of the parts of the gateway where several operations have to agree with each
other, and proofs of what they keep. `dafny verify dfyconfig.toml` checks everything.

| file | what it models |
|---|---|
| `Common.dfy` | optional values, text helpers, lists without repetitions, sorting |
| `Json.dfy`, `JsonText.dfy` | JSON values and how Go fills struct fields from them; a text form that shows the laws asked of the JSON package can be met |
| `LiveBroadcaster.dfy`, `AuditLogger.dfy` | the audit logger: writers, racing `Close` calls, the flush goroutine and the live subscribers, as one step system over all interleavings |
| `LiveDelivery.dfy`, `AuditAcceptance.dfy` | what subscribers get, and what a call of `Write` comes to |
| `AuditShutdown.dfy`, `AuditTermination.dfy` | shutting the logger down: when the wait group can panic, that closing can always be completed, and that every schedule ends |
| `AuditRecovery.dfy` | the logger after a panic of the wait group has been recovered by the request's handler |
| `Translation.dfy`, `Localization.dfy`, `Precedence.dfy` | extension localization: a merge algebra of UI translations, the choice of a locale, the layering of embedded texts and language packs, and whose text is shown |
| `BindProxies.dfy`, `Egress.dfy` | one local listener per source address, driven by the providers' configuration |
| `Providers.dfy`, `ProviderConfigs.dfy`, `Pools.dfy`, `RenameProvider.dfy` | startup merge, dashboard edits, renames and deletions of providers and pools, and the runtime view of them |
| `EnvOverrides.dfy` | the walk that overrides a configuration tree from the environment |
| `Conversation.dfy` | the thread around one audit entry |
| `AuditExport.dfy` | the paged CSV and JSONL exports |
| `Fallback.dfy`, `FallbackLaws.dfy` | the editor, reader and loader of manual fallback rules; what they keep, mean and show |
| `ExtensionFiles.dfy`, `ExtensionStore.dfy` | the JSON form of extension files, and the store of imported extensions |

How the source is rendered. Objects whose methods update them (`sidecarBindProxies`, the
egress registry, the override stores, the rename handler, the extension store,
`FallbackConfig`) are classes; each method's contract equates the new state with a function
of the old one, and the theorems are about that function and about whole runs of it. Loops
stay loops, proved against such functions. Interfaces being translated are arrays in memory, so
that copy-on-write is a statement about what is shared and what is written. The logger and the
broadcaster are concurrent, so they are labelled step systems in which every atomic operation
is one step, the accesses inside the wait group included. A panic is a state there that ends
the run: those of the Go runtime are proved absent, those of the wait group are proved to be
reachable under an exact condition, and followed further where the caller recovers. Outside
calls that may fail (listening, writing files, fetching pages, looking up entries) are
parameters that can answer anything.

Results worth knowing when changing the code:

* A `Write` that stands between its first look at the closed flag and `writes.Add(1)` while
  `Close` waits can make the wait group panic. From the winning swap on this can happen if and
  only if there is such a writer and one more call that has passed its first look and not
  finished (`PanicIff`; `AddCanPanic` and `WaitCanPanic` give the two runs,
  `FreshLoggerCanPanic` one from a new logger). No accepted entry is lost on the way there.
* When the request's handler recovers that panic, still nothing accepted is lost
  (`RecoveryLosesNothing`), but the counter stays off by one: unless the writer that lets
  `Close` go had already re-read the state word, `Close` waits for ever and the store is never
  closed (`CloseEndsIff`).
* Embedded `i18n.locales` keys are normalised when codes are offered but not when a
  translation is looked up, so a translation under `pt_BR` is offered and never shown:
  `UnnormalisedKeyNeverShows` says that it makes no difference whatever it says,
  `KeyReadIff` that a key is looked up for some request if and only if it is in normalised
  form, `EmbeddedShownIff` that every embedded translation is the bottom layer at its own code
  if and only if all keys are.
* The sidecar compares the entrypoint's hosts as they are written. An address listed there
  only in another spelling can be bound a second time, and exactly then
  (`NeverBoundTwiceIff`).
* A conversation comes out in the order of its links if and only if every entry is older than
  the next; entries of equal time may come out swapped (`ChainOrderIff`).
* Deleting a dashboard provider removes one key; an override stored under another spelling
  of the name (blanks around it) keeps the provider running (`DeleteMissesOtherSpelling`).
  `DeletedStaysDeleted` says exactly when a deleted provider stays gone over all runs of the
  handlers' edits, `DeletedForGood` when it does over edits of any stored spelling.
* An accepted rename can stop the provider: a switched-off entry stored with blanks around the
  new name is not seen by the validation and switches the new name off
  (`AcceptedRenameMayStop`, exact condition in `AcceptedRenameSwaps`).
* An accepted rename can leave a pool with a repeated member, because a disabled provider of
  the new name does not block it (`AcceptedRenameMayRepeatMember`; `RenameKeepsDistinct`,
  `RenameKeepsTotal` and `RenameBackRestores` give the exact conditions).
* A store with deleted pool names does not survive saving and loading if one of them is blank
  or has blanks around it (`SaveLoadRestores`).
* Whether a rules file in the older object form loads can depend on the order of map
  iteration (`LegacyOrderMatters`; `LegacyAlwaysLoadsIff` gives the exact condition).
* An entry of the rules file without an `enabled` flag is shown as switched off by the dashboard
  and is live (`MissingFlagIsLive`, exact condition in `ShownAsLiveIff`).
* A `null` in the list form of the rules file is passed over by the dashboard and keeps the
  whole list from loading (`NullEntryDisagrees`).
* A conversation costs at most the clamped limit of link lookups, cycles or not.

## Model

| member | source | states |
|---|---|---|
| `LiveBroadcaster.StepKeeps` | internal/audit_logging/live.go:26-56 | each atomic step of subscribing, unsubscribing, publishing and receiving keeps: no panic, ids unique, the registry exactly the open channels, queues within capacity, every running publication has tried exactly the subscribers it passed |
| `LiveBroadcaster.BroadcastSafety` | internal/audit_logging/live.go:26-56 | over every interleaving: no send on or close of a closed channel, ids never repeat, queues respect capacity, what a subscriber received or has queued is a subsequence of what was sent at it, all of it published by somebody |
| `LiveBroadcaster.PublishReachesAll` | internal/audit_logging/live.go:47-56 | a publication that ends has itself tried every registered subscriber, and exactly once, also when an equal entry was published before |
| `LiveDelivery.DeliversWhatFits` | internal/audit_logging/live.go:47-56 | over every run a subscriber has, received or queued, exactly the entries sent at it at moments when its queue had room or a receiver waited, in the order they were sent |
| `LiveDelivery.NothingMissedIff` | internal/audit_logging/live.go:50-54 | a subscriber misses nothing sent at it if and only if every send found room |
| `LiveDelivery.SubscribeOpens` | internal/audit_logging/live.go:26-36 | subscribing opens one more channel, empty, of the size asked for, under an id of its own, and leaves the others alone |
| `LiveDelivery.UnsubscribeCloses` | internal/audit_logging/live.go:38-45 | unsubscribing closes the one channel and removes the one id |
| `LiveDelivery.ClosedStaysSilent` | internal/audit_logging/live.go:38-56 | over every run nothing more arrives on a closed channel, and it stays closed |
| `LiveDelivery.CanReceiveAll` | internal/audit_logging/live.go:47-56 | a subscriber can take out everything that arrived, oldest first |
| `AuditAcceptance.WriteSettles` | internal/audit_logging/logger.go:54-87 | over every run, a call of Write that returns has had its entry accepted and published exactly once, or neither, and neither only if the logger was closed or the buffer full at some moment of the call |
| `AuditAcceptance.OnlyWritesAccept` | internal/audit_logging/logger.go:73-75 | a step accepts nothing, or the one entry of the call that makes it, at the end |
| `AuditAcceptance.RoomIsUsed` | internal/audit_logging/logger.go:54-87 | from every state of the invariant in which the logger is open, not panicked, has room and the thread is idle, some run accepts exactly its entry and its call returns |
| `AuditAcceptance.BroadcastOnlyShows` | internal/audit_logging/logger.go:92-97 | BroadcastLive publishes its entry and accepts nothing |
| `AuditAcceptance.NewLoggerTakes` | internal/audit_logging/logger.go:28-41 | while the flush goroutine does not move a new logger can take as many entries as its buffer size, 1000 when none is given |
| `AuditAcceptance.NewLoggerTakesNoMore` | internal/audit_logging/logger.go:28-75 | and never more than its buffer holds |
| `AuditAcceptance.NewLoggerHundreds` | internal/audit_logging/logger.go:146-158 | in every run without a tick and before the shutdown each batch handed to the store holds exactly 100 entries |
| `AuditLogger.AddKeepsGroup` | internal/audit_logging/logger.go:64-66 | an Add panics exactly when it finds a waiter and the counter at zero, and keeps the wait group in order otherwise |
| `AuditLogger.CloserKeepsGroup` | internal/audit_logging/logger.go:119-127 | a Close panics exactly when it re-reads a counter that is not zero |
| `AuditLogger.SendersShrink` | internal/audit_logging/logger.go:59-71 | once closed is set, no step brings a writer past its second check |
| `AuditLogger.WaitExcludesSenders` | internal/audit_logging/logger.go:119-127 | when the wait group is at zero no writer may still send |
| `AuditLogger.StepKeeps` | internal/audit_logging/logger.go:54-191 | every step of every goroutine keeps the whole invariant of gate, pipe and broadcaster |
| `AuditLogger.ExactlyOnceInOrder` | internal/audit_logging/logger.go:54-191 | in every reachable state accepted entries = batches handed to the store, then the batch, then the buffer, in acceptance order; once the store is closed everything accepted has been handed over |
| `AuditLogger.StoreProtocol` | internal/audit_logging/logger.go:119-208 | batches non-empty and at most 100 entries, the last one at most 99 plus the buffer size; all of them before the one Flush, and that before at most one Close of the store; no panic but the two of the wait group whose Add races with the end of a Wait |
| `AuditLogger.NothingAcceptedAfterWait` | internal/audit_logging/logger.go:64-71 | after a Close got past its wait no continuation accepts another entry |
| `AuditLogger.DrainTerminates` | internal/audit_logging/logger.go:160-188 | from there no run has more drain steps than entries were buffered |
| `AuditLogger.ClosedIsFinal` | internal/audit_logging/logger.go:119-136 | after the store is closed no continuation changes buffer, batch or store |
| `AuditLogger.LiveEntriesKnown` | internal/audit_logging/logger.go:73-97 | live subscribers only see entries accepted by Write or given to BroadcastLive |
| `AuditShutdown.PanicIff` | internal/audit_logging/logger.go:59-71 | from the state after the winning swap a panic can be reached if and only if some writer is between its first check and its Add and another has passed its first check and not finished |
| `AuditShutdown.AddCanPanic` | internal/audit_logging/logger.go:64-66 | under that condition a run of the threads present in which the late Add meets the waiter that is being let go |
| `AuditShutdown.WaitCanPanic` | internal/audit_logging/logger.go:126-127 | under that condition a run of the threads present in which the released Close re-reads the counter after the late Add |
| `AuditShutdown.FreshLoggerCanPanic` | internal/audit_logging/logger.go:59-71 | such a run from a new logger, with two writers and one Close |
| `AuditShutdown.SafeRun` | internal/audit_logging/logger.go:119-127 | outside the condition no continuation of any length panics |
| `AuditShutdown.FinishWriters` | internal/audit_logging/logger.go:64-87 | with nobody waiting, open or closed, the registered writers can run on until the counter is at zero |
| `AuditShutdown.FinishLoop` | internal/audit_logging/logger.go:139-191 | once done is closed the flush goroutine can run to its exit without anybody else moving |
| `AuditShutdown.CloseCanFinish` | internal/audit_logging/logger.go:119-136 | no deadlock: from every state the invariant allows in which a Close has won, the threads present, and no new calls, can run without a panic until the store is closed |
| `AuditTermination.InternalLowers` | internal/audit_logging/logger.go:54-191 | every step of a thread that is present, idle ticks aside, lowers a rank that is never negative |
| `AuditTermination.EveryScheduleEnds` | internal/audit_logging/logger.go:119-191 | whatever the schedule, the threads present take at most that many steps between new calls and idle ticks, and where none of them can move the store is closed or the wait group has panicked |
| `AuditRecovery.LandedKeeps` | internal/audit_logging/logger.go:54-191 | every step, recovered or not, keeps what does not depend on the wait group: one winning Close, no sender past its wait, the order and sizes of store calls, the conservation of accepted entries |
| `AuditRecovery.RecoveryLosesNothing` | internal/audit_logging/logger.go:54-191 | over every run in which panics of Write are recovered: accepted entries = batches handed over, then the batch, then the buffer; store calls in order; all entries handed over before the store is closed; no panic of Close but that of waking too late |
| `AuditRecovery.NothingAcceptedAfterRecovery` | internal/audit_logging/logger.go:59-71 | after a recovered panic no continuation accepts another entry |
| `AuditRecovery.FlushesAll` | internal/audit_logging/logger.go:139-191 | whatever became of Close, the flush goroutine alone can hand over everything accepted |
| `AuditRecovery.CloseEndsIff` | internal/audit_logging/logger.go:119-136 | after the recovery from a late Add some continuation closes the store if and only if the releasing writer had re-read the state word; otherwise no continuation does |
| `Translation.ApplyBlockTexts` | internal/admin/extensions_i18n.go:328-344 | in place over the block array: each block gets the text and items its decimal index names, the others stay |
| `Translation.ApplyUITranslation` | internal/admin/extensions_i18n.go:221-322 | in memory: the result reads as the per-entry translation of every list, the stored interface reads as before and nothing stored is written; which lists and blocks of the result are new and which are shared with the stored one |
| `Translation.ApplyComposes` | internal/admin/extensions_i18n.go:221-344 | applying t1 and then t2 is applying the per-key, per-field overlay of t2 on t1 once |
| `Translation.ApplyIdempotent` | internal/admin/extensions_i18n.go:221-344 | applying a translation twice is applying it once |
| `Translation.ApplyKeepsShape` | internal/admin/extensions_i18n.go:221-344 | every list keeps its length, order, ids and untranslated fields |
| `Translation.ApplyAtPlace` | internal/admin/extensions_i18n.go:221-344 | every single text afterwards is what the translation says there when that is not empty, and the old text otherwise |
| `Translation.ApplyItemsAtPlace` | internal/admin/extensions_i18n.go:328-344 | the same for a block's items |
| `Localization.NormalizeIdempotent` | internal/admin/extensions_i18n.go:118-120 | normalising a code twice is normalising it once |
| `Localization.LocaleBase` | internal/admin/extensions_i18n.go:152-154 | the base is the prefix up to the first hyphen and holds none |
| `Localization.PickIsAvailable` | internal/admin/extensions_i18n.go:159-199 | a picked code is available and of the wanted language; an exact match is picked |
| `Localization.PickLocaleByScan` | internal/admin/extensions_i18n.go:159-199 | collecting, sorting and scanning candidates gives a result that depends on the set of codes only, so map iteration cannot show |
| `Localization.NewLocalizer` | internal/admin/extensions_i18n.go:365-397 | the loop and sort give the localizer of the list: last record by id, packs in (Order, id) order |
| `Localization.StoreOrderIrrelevant` | internal/admin/extensions_i18n.go:365-397 | with unique ids the localizer is the same for every order of the stored list |
| `Localization.GatherAvailable` | internal/admin/extensions_i18n.go:401-419 | the offered codes are the normalised embedded keys and the locales of packs that name the extension |
| `Localization.ApplyName` | internal/admin/extensions_i18n.go:423-454 | names after the embedded layer and the matching packs in order |
| `Localization.ApplyUIFor` | internal/admin/extensions_i18n.go:458-473 | the UI after the same layers, the stored one unchanged |
| `Localization.LayeredNamesAreLast` | internal/admin/extensions_i18n.go:423-454 | name, tagline and description are each the last non-empty value among the layers, else the source text |
| `Localization.LayeredTextIsLast` | internal/admin/extensions_i18n.go:458-473 | so is every text of the UI, at every place |
| `Localization.LayersCombine` | internal/admin/extensions_i18n.go:221-322 | any stack of layers equals one translation, their overlay |
| `Localization.LocalizeExtension` | internal/admin/extensions_i18n.go:476-486 | names and UI of the localized record, with the stored record unchanged |
| `Localization.LocalizeContribution` | internal/admin/extensions_i18n.go:495-515 | the contribution after the owner's layers and then its own, with the stored one unchanged |
| `Localization.LocalizedTexts` | internal/admin/extensions_i18n.go:476-486 | a localized extension differs from the stored one only in names and UI, keeps the UI's shape, and every text in it is the last non-empty one among embedded translation and packs |
| `Localization.LocalizedIgnoresStoreOrder` | internal/admin/extensions_i18n.go:365-486 | with unique ids a localized extension does not depend on store order |
| `Precedence.NormalAlikeIff` | internal/admin/extensions_i18n.go:118-120 | two codes normalise alike if and only if they differ in blanks around them, case and separator only |
| `Precedence.NormalCodeIff` | internal/admin/extensions_i18n.go:118-120 | the normal codes are exactly the trimmed ones in lower case with hyphens |
| `Precedence.OfferedIff` | internal/admin/extensions_i18n.go:401-419 | a code is offered for some ids if and only if a stored record of one of them embeds it or a stored pack of that locale names one of them |
| `Precedence.PickedIff` | internal/admin/extensions_i18n.go:159-199 | which code is picked: the one wanted, else the bare language, else zh-cn for Chinese, else the only one of the language, and none where there are several |
| `Precedence.PacksInOrder` | internal/admin/extensions_i18n.go:389-396 | a localizer's packs ascend by Order, and by id in dictionary order among equal ones |
| `Precedence.LastRecordCounts` | internal/admin/extensions_i18n.go:374-376 | should an id be stored twice, the last record of it counts |
| `Precedence.ShownFromPack` | internal/admin/extensions_i18n.go:423-486 | with unique ids each text of a localized extension is that of the stored pack of greatest Order and then id that has the code and says something there |
| `Precedence.ShownFromRecord` | internal/admin/extensions_i18n.go:423-486 | where no such pack says anything it is what the record embeds under the code, else the record's own text |
| `Precedence.ShownAsStored` | internal/admin/extensions_i18n.go:476-480 | where no code is picked an extension is shown as it is stored |
| `Precedence.LaterPackWins` | internal/admin/extensions_i18n.go:387-396 | of two matching packs the one of greater Order is heard, the other where it is silent |
| `Precedence.OwnTextWins` | internal/admin/extensions_i18n.go:495-515 | a contribution shows what is said for its own id, else for its owner, else its own text, with the code picked among those offered for either |
| `Precedence.OwnContribution` | internal/admin/extensions_i18n.go:495-515 | without another owner it is localized for its own id alone |
| `Localization.KeyReadIff` | internal/admin/extensions_i18n.go:401-430 | an embedded key is looked up for some requested locale if and only if it is in normalised form |
| `Localization.UnnormalisedKeyNeverShows` | internal/admin/extensions_i18n.go:401-486 | for every localizer and request, replacing a translation under an unnormalised key changes no localized extension |
| `Localization.EmbeddedShownIff` | internal/admin/extensions_i18n.go:423-430 | with given embedded keys, every translation is the bottom layer at its own normalised code, whatever the translations and packs, if and only if each non-blank key is normalised already |
| `Localization.LocalizeNormalPacks` | internal/admin/extensions_i18n.go:365-397 | every localizer built from a store has packs with normalised locales, as the results on embedded keys ask |
| `Localization.UnderscoreIsUnnormalised` | internal/admin/extensions_i18n.go:118-120 | a key with an underscore is not in normalised form |
| `Localization.UnderscoreKeyNeverShows` | internal/admin/extensions_i18n.go:365-486 | in every localizer built from a store such a key is looked up for no request, and what is translated under it changes no localized extension |
| `Localization.OfferedMeansTranslated` | internal/admin/extensions_i18n.go:401-486 | every offered code has some layer if and only if each embedded key is either found under its normalised form or served by a language pack |
| `Localization.UnnormalisedKeyIsLost` | internal/admin/extensions_i18n.go:423-430 | a sole embedded key that is not normal is offered, picked, and changes nothing |
| `BindProxies.NormalisedSpec` | internal/application/bindproxy.go:178-199 | the desired list is the sorted duplicate-free set of canonical addresses |
| `BindProxies.NormalisedBySet` | internal/application/bindproxy.go:176-199 | it depends on the set of addresses only |
| `BindProxies.KeepAddresses` | internal/application/bindproxy.go:178-199 | the loop keeps each parseable address once |
| `BindProxies.SidecarBindProxies.Sync` | internal/application/bindproxy.go:79-132 | the whole new state after one sync, listen and write failures included, and the invariant |
| `BindProxies.SidecarBindProxies.WriteLocked` | internal/application/bindproxy.go:135-160 | the file is replaced only for a changed payload and remembered only when written |
| `BindProxies.SidecarBindProxies.Stop` | internal/application/bindproxy.go:164-174 | every owned listener is closed and nothing is owned |
| `BindProxies.AddressesAreParsed` | internal/application/bindproxy.go:178-197 | the addresses asked for are what the entries that are not blank parse to, trimmed |
| `BindProxies.SyncOwns` | internal/application/bindproxy.go:84-130 | for every state, call and outcome: which addresses have a listener afterwards, that kept ones keep listener and port, and that a new one has the port listening answered |
| `BindProxies.PayloadPorts` | internal/application/bindproxy.go:91-131 | what is to be published: for each address asked for the entrypoint's port if it lists it, else the port of its listener if it has one, and nothing else |
| `BindProxies.PayloadOrder` | internal/application/bindproxy.go:91-131 | in dictionary order, each address once |
| `BindProxies.SyncWrites` | internal/application/bindproxy.go:135-160 | the file says the payload afterwards whenever it can be written, and is rewritten exactly when what it says changes |
| `BindProxies.StopLeavesNothing` | internal/application/bindproxy.go:164-174 | stopping closes every open listener once, owns nothing, and leaves the file alone |
| `BindProxies.SyncKeeps` | internal/application/bindproxy.go:79-132 | open listeners are exactly the owned ones, one address each, no host of the entrypoint's list owned |
| `BindProxies.RunsAreSafe` | internal/application/bindproxy.go:79-174 | that holds after any run of Sync and Stop, and no listener is closed twice |
| `BindProxies.NeverBoundTwiceIff` | internal/application/bindproxy.go:64-95 | no run binds an address the entrypoint serves, in whatever spelling, a second time if and only if each of them is also listed in canonical form |
| `BindProxies.DesiredKeepsListener` | internal/application/bindproxy.go:94-116 | an address desired by every sync of a run keeps its listener and port |
| `BindProxies.OwnedIsPublished` | internal/application/bindproxy.go:88-131 | after a sync, whatever failed, the owned addresses are exactly the published ones outside the entrypoint's |
| `BindProxies.PublishesDesired` | internal/application/bindproxy.go:88-131 | without listen failures exactly the desired list is published, in order |
| `BindProxies.RepeatDoesNothing` | internal/application/bindproxy.go:79-160 | a second sync with the same set of addresses, in any order and with any listener behaviour, changes nothing |
| `Egress.Registry.SetCore` | internal/egress/egress.go:229-258 | strategy and candidates of one provider replaced, repeats dropped, its disabled set, rotation and tier cool-downs kept, and the health of exactly the exits that stay |
| `Common.DedupSpec` | internal/egress/egress.go:903-923 | candidates are stored as given if and only if they differ; what is stored never repeats and has the same elements |
| `Egress.Registry.SetDisabled` | internal/egress/egress.go:282-305 | the disabled set of one provider replaced, everything else kept |
| `Egress.App.SyncEgress` | internal/application/egress.go:32-64 | whatever the map order: the registry holds exactly the runtime providers with their exits and the health that still applies, and the sidecar is synced with exactly their addresses |
| `Egress.RegistersAsConfigured` | internal/application/egress.go:38-54 | a rebuild registers for a provider exactly the addresses its texts parse to, as turned off exactly the names it lists, trimmed, and its strategy; without addresses no strategy and no health |
| `Egress.SingleAddressFirst` | internal/application/egress.go:70-96 | the single address, where there is one, is the first exit |
| `Egress.StrategyMeans` | internal/egress/egress.go:49-60 | which text means which strategy: three names in any case, round robin otherwise |
| `Egress.HealthOutlivesRebuilds` | internal/egress/egress.go:226-258 | over any run of rebuilds in which a provider keeps an exit, the exit's health and cool-down stay as they were |
| `Egress.DroppedIsForgotten` | internal/egress/egress.go:251-257 | a rebuild in which the exit is gone forgets its health |
| `Egress.RebuildSettles` | internal/application/egress.go:32-64 | a second rebuild over the same providers leaves the whole registry as it is |
| `Egress.EgressPublishesAll` | internal/application/egress.go:32-96 | without listen failures the published list is the sorted duplicate-free set of all providers' canonical addresses |
| `Egress.EgressRepeatDoesNothing` | internal/application/egress.go:32-64 | after a successful write a repeat over the same providers opens, closes and writes nothing |
| `Providers.LoadResult.MergeOverrides` | apps/aurora/main.go:489-554 | the loop over the override file, patches and new entries included |
| `Providers.MergeThenDropRestoresNames` | apps/aurora/main.go:515-551 | for every config and file, merge and then drop leaves exactly the static names, each with its static settings apart from the four patched fields |
| `Providers.App.DropStartupMergedOverrides` | internal/application/runtime_refresh.go:450-459 | the recorded names are removed, trimmed |
| `Providers.ProviderOverrideStore.Upsert` | internal/admin/handler_providers_crud.go:160-165 | the entry under the override's name is replaced, the others stay |
| `Providers.ProviderOverrideStore.Remove` | internal/admin/handler_providers_crud.go:167-172 | the entry under that key is gone, the others stay |
| `Providers.ProviderOverrideStore.RawConfigs` | internal/admin/handler_providers_crud.go:176-212 | configurations for exactly the trimmed names of enabled overrides, each from one of them |
| `Providers.ProviderOverrideStore.DisabledNames` | internal/admin/handler_providers_crud.go:215-227 | exactly the trimmed names of disabled overrides |
| `Providers.App.RuntimeRawProviders` | internal/application/runtime_refresh.go:461-478 | the runtime names are (static or enabled) and not disabled; overrides supply the configuration where there is one |
| `ProviderConfigs.SpelledRuns` | internal/admin/handler_providers_crud.go:176-212 | storing the override that spells out a trimmed configuration makes exactly that configuration run, when the name is stored in no other spelling |
| `ProviderConfigs.RunsIff` | internal/application/runtime_refresh.go:461-478 | a provider runs if and only if it is configured or has an override, an absent flag counting as on, and none of its overrides says it is off |
| `ProviderConfigs.RunsWithFields` | internal/admin/handler_providers_crud.go:176-212 | every running provider has, field by field, what one of its overrides that is not off says, without blanks and with an absent flag off, or its static configuration |
| `ProviderConfigs.RenameKeepsConfig` | internal/admin/handler_providers_crud.go:459-478 | the renamed provider runs with the fields of the edited entry |
| `ProviderConfigs.LastEntryIsStored` | internal/admin/handler_providers_crud.go:113-127 | of the entries of the file with one name the last is stored, nameless ones are not |
| `ProviderConfigs.DroppedIff` | internal/application/runtime_refresh.go:450-459 | dropping names removes exactly the entries they mean once trimmed |
| `ProviderConfigs.MergedField` | apps/aurora/main.go:515-551 | each patched field of a static entry is what the last override of its name says that says anything, else the static value |
| `ProviderConfigs.MergedFromFirst` | apps/aurora/main.go:520-535 | a name that is not static is there if and only if the file has it, with type, key, URL and version of its first override, trimmed |
| `ProviderConfigs.MergedNewField` | apps/aurora/main.go:536-548 | and its patched fields from the last override that says anything |
| `Providers.DeleteTakesEffect` | internal/admin/handler_providers_crud.go:167-227 | a deleted dashboard-only provider is gone from the runtime if and only if no other spelling of it is enabled, unless another one is disabled |
| `Providers.DeleteMissesOtherSpelling` | internal/admin/handler_providers_crud.go:167-212 | with a second enabled spelling the provider keeps running |
| `Providers.DeletedStaysDeleted` | internal/admin/handler_providers_crud.go:160-227 | a deleted dashboard-only provider stays gone over every run of handlers' edits that does not create it if and only if no other stored spelling of its name is enabled, unless yet another one is disabled |
| `Providers.DeletedForGood` | internal/admin/handler_providers_crud.go:160-227 | over every run of edits of any stored spelling that does not create it, it stays gone if and only if no other stored spelling is enabled |
| `Providers.RenameSwapsName` | internal/admin/handler_providers_crud.go:459-478 | for every store, a rename swaps exactly that name in the runtime set if and only if the names differ, the entry is enabled and no other stored spelling of the new name is disabled |
| `Pools.MembersSpec` | internal/admin/handler_pools.go:416-433 | normalised members are distinct and are exactly the non-blank trimmed names |
| `Pools.NormalizeMembers` | internal/admin/handler_pools.go:416-433 | the loop computes them |
| `Pools.PoolOverrideStore.Save` | internal/admin/handler_pools.go:83-98 | the document holds the pools and the sorted deleted names |
| `Pools.PoolOverrideStore.Upsert` | internal/admin/handler_pools.go:122-129 | a managed pool under the trimmed name, which is no longer deleted |
| `Pools.PoolOverrideStore.Delete` | internal/admin/handler_pools.go:132-138 | the name is deleted and no longer managed |
| `Pools.PoolOverrideStore.RenameMembers` | internal/admin/handler_pools.go:142-166 | every managed pool renamed, members and weights, nothing else changed |
| `Pools.PoolOverrideStore.ApplyToRawPools` | internal/admin/handler_pools.go:170-184 | static pools without the deleted ones, managed definitions on top |
| `Pools.RunsStayDisjoint` | internal/admin/handler_pools.go:122-184 | over any run deleted and managed names stay disjoint; runtime pools are static minus deleted plus managed, managed winning |
| `Pools.EditsTakeEffect` | internal/admin/handler_pools.go:112-184 | an edited pool runs as edited, a deleted one not at all, and all others as before |
| `Pools.SaveLoadRestores` | internal/admin/handler_pools.go:64-98 | saving and loading gives back the store if and only if its deleted names are trimmed and not empty |
| `Pools.RunsStayPlain` | internal/admin/handler_pools.go:122-138 | they stay so over any run that deletes no blank name |
| `Pools.RenameForgetsOld` | internal/admin/handler_pools.go:142-166 | count and positions of members kept, no reference to the old name left in members or weights |
| `Pools.RenameKeepsDistinct` | internal/admin/handler_pools.go:142-166 | members stay distinct if and only if not both names were members |
| `Pools.RenameKeepsTotal` | internal/admin/handler_pools.go:142-166 | the total weight stays if and only if the new name had no weight to lose |
| `Pools.RenameBackRestores` | internal/admin/handler_pools.go:142-166 | renaming back restores the pool if and only if the new name was fresh in it |
| `RenameProvider.Handler.Validate` | internal/admin/handler_providers_crud.go:496-509 | which new names are refused, and with which error |
| `RenameProvider.Handler.Rename` | internal/admin/handler_providers_crud.go:459-478 | a refused rename changes nothing; an accepted one stores the new name, disables the old one and renames all pool members |
| `RenameProvider.AcceptedRenameSwaps` | internal/admin/handler_providers_crud.go:459-509 | a new name the validation accepts is not running, and the rename swaps exactly that name if and only if the entry is enabled and no disabled entry is stored under another spelling of the new name |
| `RenameProvider.AcceptedRenameMayStop` | internal/admin/handler_providers_crud.go:459-509 | with such an entry the rename is accepted and neither name runs afterwards |
| `RenameProvider.RenameKeepsPools` | internal/admin/handler_pools.go:142-166 | a fresh new name keeps every pool's count, order, distinctness and total weight, drops the old name, and is undone by renaming back |
| `RenameProvider.AcceptedRenameMayRepeatMember` | internal/admin/handler_providers_crud.go:496-509 | a disabled provider of the new name is not known to validation, and a pool holding both ends up with a repeated member |
| `EnvOverrides.ApplyEnvOverrides` | configuration/env.go:40-141 | the recursive loop computes the pruned walk: same values, same failing field |
| `EnvOverrides.EveryLeafAsExpected` | configuration/env.go:40-141 | after a successful walk every leaf at any depth holds its parsed variable when tagged, supported and set, and its old value otherwise |
| `EnvOverrides.EveryLeafReads` | configuration/env.go:84-141 | such a leaf holds, by kind, the text itself, on or off, the pieces between commas trimmed without blank ones, or the number read by the parser of its kind; every other leaf is as it was |
| `EnvOverrides.ParseBoolIff` | configuration/env.go:169-171 | on are "1" and "true" in any case, and nothing else |
| `EnvOverrides.ZerosRead` | configuration/env.go:58-82 | what an absent section reads as |
| `EnvOverrides.FailureIsFirst` | configuration/env.go:40-141 | a failed walk names the field of the first leaf, in the order of the fields at every depth, whose variable does not parse |
| `EnvOverrides.WalkSucceedsIff` | configuration/env.go:103-138 | the walk succeeds if and only if every set variable of a supported tagged leaf parses |
| `EnvOverrides.WalkIdempotent` | configuration/env.go:40-141 | repeating a successful walk changes nothing |
| `EnvOverrides.PruningIrrelevant` | configuration/env.go:21-38 | skipping absent sections without tags gives the same values and error as not skipping |
| `EnvOverrides.SectionPresence` | configuration/env.go:58-82 | a present section stays, an absent one appears only with something non-zero in it |
| `Conversation.ClampLimit` | internal/audit_logging/conversation_helpers.go:132-147 | the limit used is from 1 to 50: the one asked for when that is in range, 40 when none is asked for, 50 when it is larger |
| `Conversation.SortByTime` | internal/audit_logging/conversation_helpers.go:69-71 | a permutation in time order, nothing said about equal times |
| `Conversation.WalkBack` | internal/audit_logging/conversation_helpers.go:30-48 | the first loop, its lookups and its errors |
| `Conversation.WalkForward` | internal/audit_logging/conversation_helpers.go:50-67 | the second loop, its lookups and its errors |
| `Conversation.BuildThread` | internal/audit_logging/conversation_helpers.go:13-87 | at most the clamped limit of link lookups; lookup errors passed on; an unknown id gives an empty conversation; otherwise the thread sorted by time |
| `Conversation.LookupBound` | internal/audit_logging/conversation_helpers.go:31-67 | for any links, cyclic or not, at most limit lookups and at most limit entries |
| `Conversation.ThreadIsMaximalChain` | internal/audit_logging/conversation_helpers.go:27-67 | the thread is a linked chain of entries with different ids holding the anchor, and below the limit neither end can be extended |
| `Conversation.FirstElementDecides` | internal/audit_logging/conversation_helpers.go:103-118 | in an ordered document the first element of a name decides |
| `Conversation.IdsAreRead` | internal/audit_logging/conversation_helpers.go:89-130 | the response id is the text under "id" in the response, the one answered the text under "previous_response_id" in the request, of maps and of documents, trimmed |
| `Conversation.NothingRead` | internal/audit_logging/conversation_helpers.go:89-130 | without such a text there is no response id |
| `Conversation.NothingReadBack` | internal/audit_logging/conversation_helpers.go:89-130 | nor one that is answered |
| `Conversation.ErrorIsAtAnEnd` | internal/audit_logging/conversation_helpers.go:31-67 | an error is that of a lookup at an end of the thread, and below the limit there is none only if neither end failed |
| `Conversation.StoreErrorsShow` | internal/audit_logging/conversation_helpers.go:31-67 | a thread fails with the store's own error for the id at one of its ends, and below the limit it fails whenever the store fails for either |
| `Conversation.ChainOrderIff` | internal/audit_logging/conversation_helpers.go:69-71 | the sort can only give back the chain itself if and only if every entry of it is older than the next |
| `Conversation.ChainOrder` | internal/audit_logging/conversation_helpers.go:69-71 | when the links between the entries a store holds advance in time the sorted output is exactly the chain |
| `Conversation.HeldConversationAdvances` | internal/audit_logging/conversation_helpers.go:30-71 | every stored conversation whose entries advance in time meets that hypothesis, of any length |
| `Conversation.TwoEntriesAdvance` | internal/audit_logging/conversation_helpers.go:89-118 | a concrete store of two linked entries that meets it, and its thread |
| `Conversation.EachAnswersTheLast` | internal/audit_logging/conversation_helpers.go:89-118 | with faithful lookups each entry's previous response id is the response id of the one before it |
| `Conversation.WholeConversation` | internal/audit_logging/conversation_helpers.go:30-67 | from any entry of a stored conversation the walk returns all of it when it fits, else the last entries up to the anchor filled up with later ones |
| `AuditExport.GetExportPage` | internal/admin/handler_audit.go:313-331 | the first successful of three attempts, failure when none is or the context ends |
| `AuditExport.WriteCsv` | internal/admin/handler_audit.go:223-309 | the rows and the error of the CSV export for any reader and writer |
| `AuditExport.WriteJsonl` | internal/admin/handler_audit.go:333-398 | the same for JSONL |
| `AuditExport.ExportIsPrefix` | internal/admin/handler_audit.go:223-398 | over an unchanging log, whatever fails and whenever, the rows are a prefix of the log of at most a million rows |
| `AuditExport.ReachedIff` | internal/admin/handler_audit.go:246-331 | a page is reached if and only if the context holds and one of exactly three attempts succeeds before it ends |
| `AuditExport.FirstSuccess` | internal/admin/handler_audit.go:313-331 | the first of them that succeeds gives the page |
| `AuditExport.FirstTotalStands` | internal/admin/handler_audit.go:264-266 | the total is that of the first page, whatever later pages say |
| `AuditExport.ExportEnds` | internal/admin/handler_audit.go:223-398 | whatever fails: an error is reported exactly when a row or, for CSV, a flush was refused; otherwise the rows end at a page that was not reached or are all there |
| `AuditExport.ExportUpTo` | internal/admin/handler_audit.go:250-307 | with a working writer the rows are exactly those of the pages before the first one that is not reached |
| `AuditExport.ExportIsComplete` | internal/admin/handler_audit.go:250-307 | when every page is reached both formats hold exactly the first million rows |
| `Fallback.Normalize` | internal/admin/handler_fallback.go:57-84 | the editor's loop keeps, trimmed and in order, the first usable rule of every source |
| `FallbackLaws.NormalizedKeeps` | internal/admin/handler_fallback.go:58-84 | what the editor keeps: exactly the first rule of each model that names a target, trimmed, with its flag |
| `FallbackLaws.NormalizedInOrder` | internal/admin/handler_fallback.go:58-84 | in the order submitted |
| `Fallback.NormalIsFixed` | internal/admin/handler_fallback.go:57-84 | normalising leaves a list alone if and only if it is trimmed, usable and without repeated sources |
| `Fallback.NormalizedIsNormal` | internal/admin/handler_fallback.go:57-84 | what normalising gives is such a list |
| `Fallback.SanitizeTargets` | internal/admin/handler_fallback.go:181-190 | the non-blank targets, trimmed, in order; every one non-empty and trimmed |
| `Fallback.ReadFallbackRules` | internal/admin/handler_fallback.go:123-179 | what the reader makes of a file, both formats and every error |
| `Fallback.WrittenReadsBack` | internal/admin/handler_fallback.go:86-92 | the written file reads back as exactly the normalised list |
| `Fallback.LoadText` | configuration/fallback.go:108-192 | what the loader makes of a file, both formats and every error |
| `Fallback.LiveIff` | configuration/fallback.go:128-152 | rows load if and only if all are well-formed and no key comes again after it was enabled, and then exactly the enabled rows are live |
| `JsonText.LawsCanHold` | configuration/fallback.go:117-152 | some text form of JSON, expansion and walk order meet all the laws the results on written files ask for |
| `Fallback.WrittenLoads` | configuration/fallback.go:117-152 | the written file always loads and the live map is exactly its enabled rules, as long as no text holds a dollar sign |
| `Fallback.SavedRulesGoLive` | internal/admin/handler_fallback.go:44-109 | the same from the submitted list: what is saved is read back normalised and its enabled rules are live |
| `FallbackLaws.LegacyLoads` | configuration/fallback.go:154-178 | rules in the older object form, as lists or objects, load in whatever order the keys are walked, and exactly the enabled ones go live |
| `FallbackLaws.LegacyReadsBack` | internal/admin/handler_fallback.go:158-179 | and the dashboard shows exactly them |
| `FallbackLaws.ValueIff` | configuration/fallback.go:220-242 | which values of a rule decode |
| `FallbackLaws.EntryUse` | configuration/fallback.go:128-149 | an entry is skipped if and only if its flag is off, and refused if and only if it is not and has no targets that decode |
| `FallbackLaws.LegacyUse` | configuration/fallback.go:159-178 | a value of the older form is refused if and only if it is null or does not decode, skipped if and only if its flag is off |
| `FallbackLaws.LegacyReadIff` | internal/admin/handler_fallback.go:158-179 | when the reader fails on an object, and exactly what it shows of one otherwise |
| `FallbackLaws.ReadKeeps` | internal/admin/handler_fallback.go:135-152 | of a list the reader shows exactly what those entries come to that name a model and a target |
| `FallbackLaws.RuleMeans` | internal/admin/handler_fallback.go:135-139 | which entries decode for the reader, and to what |
| `FallbackLaws.EntryMeans` | configuration/fallback.go:117-126 | which entries decode for the loader, and to what |
| `FallbackLaws.NullEntryDisagrees` | configuration/fallback.go:122-131 | a null in the list is passed over by the dashboard and keeps the whole list from loading |
| `FallbackLaws.OtherTextsRead` | internal/admin/handler_fallback.go:123-158 | what blank, null and other documents are to the reader |
| `FallbackLaws.OtherTextsLoad` | configuration/fallback.go:106-158 | and to the loader |
| `FallbackLaws.ShownAsLiveIff` | configuration/fallback.go:118-149 | dashboard and loader agree whether an entry is enabled if and only if its last flag is not null or its last that is not null is on |
| `FallbackLaws.MissingFlagIsLive` | configuration/fallback.go:118-149 | an entry without a flag is shown as off and is live |
| `FallbackLaws.DefaultModeIff` | configuration/fallback.go:20-43 | which default modes are accepted and what they become |
| `FallbackLaws.OverridesSettleIff` | configuration/fallback.go:76-97 | the overrides settle if and only if no key is blank or repeated after trimming and each names a mode; then each has its mode in lower case |
| `FallbackLaws.ManualCases` | configuration/fallback.go:99-114 | no rules without a path, an error for a missing file or one that does not load, else its rules |
| `Json.TextFieldMeans` | configuration/fallback.go:117-126 | a text field is the last text given under its name in any case; nulls do not count, anything else fails |
| `Json.BoolFieldMeans` | internal/admin/handler_fallback.go:18-22 | so is a flag, off when none is given |
| `Json.FlagFieldMeans` | configuration/fallback.go:117-121 | an optional flag is the last one given, absent when that is null |
| `Json.TextsFieldMeans` | internal/admin/handler_fallback.go:18-22 | a list field is the last list given |
| `Json.RawFieldMeans` | configuration/fallback.go:117-121 | a raw field is the last value given |
| `Json.RawMapMeans` | configuration/fallback.go:154-158 | in a map of raw values the last value of each key stands |
| `Fallback.LegacyAlwaysLoadsIff` | configuration/fallback.go:154-178 | an object loads in every order of map iteration if and only if all its rules are well-formed and no enabled key equals another after trimming |
| `Fallback.LegacyOrderMatters` | configuration/fallback.go:159-178 | an enabled and a disabled spelling of one name load in one order and not in the other |
| `Fallback.SettledWhateverOrder` | configuration/fallback.go:76-96 | the overrides settle to the same map, or are refused, in every order of iteration |
| `Fallback.FallbackConfig.Load` | configuration/fallback.go:66-193 | the whole new configuration for every outcome; a failed load keeps the manual rules |
| `Fallback.Dashboard.Update` | internal/admin/handler_fallback.go:44-109 | the file written, the rules made live, the answer, and what each failure leaves unchanged |
| `ExtensionFiles.JoinSplit` | internal/admin/extensions.go:308-313 | joining the lines of a text gives the text |
| `ExtensionFiles.SplitJoin` | internal/admin/extensions.go:308-313 | splitting the joined lines gives the lines if and only if there is a line and none holds a newline |
| `ExtensionFiles.FileRoundTrip` | internal/admin/extensions.go:250-313 | an encoded file decodes to the same reference and content, whatever the text |
| `ExtensionFiles.DecodesIff` | internal/admin/extensions.go:250-290 | exactly which documents decode to a file |
| `ExtensionFiles.DecodeMeans` | internal/admin/extensions.go:250-290 | and to which: the text, the lines joined, the reference and content of an object |
| `ExtensionFiles.NormalIffEncoded` | internal/admin/extensions.go:291-313 | the encoder produces exactly the normal shapes |
| `ExtensionFiles.RewriteSettles` | internal/admin/extensions.go:250-313 | decoding and encoding keeps the meaning, settles at once, and leaves a document alone if and only if it is normal |
| `ExtensionFiles.DecodeFiles` | internal/admin/extensions.go:323-342 | all files or none, in whatever order the map is walked |
| `ExtensionFiles.FilesRoundTrip` | internal/admin/extensions.go:291-342 | every file map, the nil one included, survives encoding and decoding |
| `ExtensionFiles.EncodingUnique` | internal/admin/extensions.go:291-306 | the encoding is a function of the map |
| `ExtensionStore.MergeConfig` | internal/admin/extensions.go:610-625 | the union of both key sets, incoming values winning |
| `ExtensionStore.Store.Upsert` | internal/admin/extensions.go:530-553 | the first record of that id replaced with its config merged, or the record appended |
| `ExtensionStore.Store.Import` | internal/admin/extensions.go:575-607 | the first record of that id re-imported in place, or the record appended |
| `ExtensionStore.Store.ResetConfig` | internal/admin/extensions.go:558-570 | the saved values of one record removed, and whether it was there |
| `ExtensionStore.Store.Delete` | internal/admin/extensions.go:679-690 | one record removed, and whether it was there |
| `ExtensionStore.Store.Positions` | internal/admin/extensions.go:632-650 | the first repeated or unknown id is the error; otherwise the place of each listed id |
| `ExtensionStore.Store.Reorder` | internal/admin/extensions.go:629-658 | a refused list changes nothing, an accepted one gives every record its new order |
| `ExtensionStore.Store.UnapplyThemesExcept` | internal/admin/extensions.go:662-676 | the applied flag cleared on every other theme, nothing else changed |
| `ExtensionStore.FirstBadIs` | internal/admin/extensions.go:630-648 | a refused reorder names the first id that is repeated or not stored |
| `ExtensionStore.UpsertReplaces` | internal/admin/extensions.go:530-549 | an upsert puts the new record in the old one's place, its values win, saved ones it does not mention stay, other records stay |
| `ExtensionStore.NewIsAppended` | internal/admin/extensions.go:530-599 | a new record is added at the end as it is but for the flag |
| `ExtensionStore.ResetThenImport` | internal/admin/extensions.go:556-599 | a reset forgets one record's saved values, so that an import brings the shipped ones |
| `ExtensionStore.DeletionLeavesOthers` | internal/admin/extensions.go:679-690 | a deletion takes the one record out and leaves the others in their order |
| `ExtensionStore.RunKeepsUnique` | internal/admin/extensions.go:530-690 | from a duplicate-free store ids stay unique over any run, and whether an id is stored is decided by its last import, upsert or deletion |
| `ExtensionStore.ImportIdempotent` | internal/admin/extensions.go:575-607 | importing the same document twice is importing it once |
| `ExtensionStore.ImportKeepsOperatorState` | internal/admin/extensions.go:572-607 | a re-import keeps name, applied flag and every saved value, takes order and source only when given, and touches no other record |
| `ExtensionStore.OneThemeLeft` | internal/admin/extensions.go:660-676 | afterwards at most one theme is applied, and it is the one named |
| `ExtensionStore.ReorderGivesOrder` | internal/admin/extensions.go:627-658 | after a reorder all orders differ, ascending order is the listed ids and then the others as stored, and a listed record's order is its place in the list, any other's its stored place after them |

## Left out

- Concurrency as classes: the logger and the broadcaster are step systems on values, because the claims are about interleavings; the int64 id counter and the wait group's counter are unbounded, negative subscriber buffer sizes are not modelled. A panic of Close ends the run; one of Write either ends it or is recovered (`AuditRecovery`).
- AuditRecovery.RecoveryLosesNothing: takes every panic of Write to be recovered and none of Close; a goroutine that calls Write outside a request's handler would end the process instead (`AuditLogger`).
- AuditTermination.EveryScheduleEnds: bounds the steps between new calls and idle ticks; that a scheduler eventually lets a thread move is not modelled.
- AuditLogger.ExactlyOnceInOrder: counts an entry as handed over when WriteBatch is called with it; errors of WriteBatch are logged and dropped by the source.
- Translation.ApplyUITranslation: the items of a block are a value, so that a translated block gets its own copy of them is not captured.
- Aliasing elsewhere: records, rules and pools are values, so sharing between them and their copies is not captured.
- Common.ToLower: folds ASCII letters only; Go's Unicode case folding is not modelled.
- Localization: the locale store, code validation and the HTTP handlers are left out; an absent embedded section and an empty one are the same; the handler without an extension store is the empty locale case.
- BindProxies.SidecarBindProxies.Sync: parsing addresses is a parameter (canonical text parses to itself where a theorem needs it), the published file is compared as a list and not as JSON text, serving connections is left out.
- Egress: picking an exit and reporting its outcome, exits contributed by extensions, the hook cache and the pools a provider is in are left out.
- Providers: fields the overrides do not touch travel together as one value; which of several spellings that differ in blanks supplies a configuration is left open, as map iteration leaves it; secrets, validation of requests and the refresh after an edit are left out.
- RenameProvider.AcceptedRenameSwaps: is about two different names; renaming to the same name is not excluded by the code, `RenameProvider.Handler.Rename` describes it and `Providers.RenameSwapsName` covers it.
- Pools: the auto-fetch filter is not part of a pool here because copying a pool drops it; nil and empty lists are the same.
- EnvOverrides: Go's number parsers are parameters; comparing a section with its zero value treats floating point as exact; recursive struct types are left out.
- Conversation: the database queries behind the lookups are parameters.
- AuditExport: rendering and sanitising of cells, buffering inside the CSV writer and the total time limit are left out; a row counts when the writer takes it, and the context may end at any check.
- Fallback: JSON text, expansion of variables and file access are parameters with the laws stated in `Faithful`, which can hold together (`JsonText.LawsCanHold`); expanding text without a dollar sign leaves it alone, and a rule that contains one may load differently from what was written. A failed write leaves the file as it was. The second pass over the decoded object (configuration/fallback.go:180-191) copies trimmed distinct keys and is the identity. Null elements inside a repeated targets key are read as empty.
- ExtensionFiles: works on JSON values, not on their text; invalid UTF-8 is left out.
- ExtensionStore: persistence, activation of provider types, migration of older files and validation of manifests are left out; nil and empty saved values are the same.
- The dashboard settings overlay, addon interpretation, session hub, failover resolver, model registry, start and shutdown of the application, and all HTTP plumbing are not modelled.
