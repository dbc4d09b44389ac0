# SimAdmin: a verified model of its stateful core

SimAdmin runs cellular modems and their SIM lines on a small host. Four parts of it keep
state that has to survive hotplug, crashes, concurrent callers and an operator's own edits.
This project models those parts in Dafny, as the code behaves, and proves what they
promise.

**Event stream** (`EventLog`, `EventStream`, `EventProgress`). A client follows the durable
event log over server-sent events. Its connection starts from pages of history, hands over to a bounded
broadcast, discards duplicates by id, and goes back to history when it lags. The model is a
state machine in which commits, broadcasts, lag, read failures, retention and shutdown
interleave freely with the connection's own steps; `Connection` is the loop itself.

**Installer** (`Installer`). Five replacements by rename, the service commands around
them, a rollback that may itself fail, and a cleanup that deletes the backups. Every
operation consults an arbitrary schedule of faults, including interruption after the
effect, a recursive delete that stops half way, a service that dies after its start, a message
that cannot be written, and an interrupt around the setting of a flag. Ghost fields record the
world after every operation and at every service start, the service commands, what the health
checks found, and how the transaction really ended.

**Configuration file** (`Documents`, `ConfigMerge`, `ConfigFile`, `ConfigSave`, and the `Yaml` modules).
A recursive three-way merge writes changed settings into the operator's file and keeps
everything else, comments included; the result is read back before it is written. A file
that is absent or blank is written by the first-time printer instead, by indentation and
without being read back. Documents are trees whose
nodes carry opaque trivia; the typed read fills in defaults, insists on required keys, and
ignores unknown keys except in a section that refuses them. The printer's text is read by a
reference reader for the printed subset of YAML 1.2.2.

**Configuration store** (`ModemSlots`, `SlotOrders`, `SlotStability`, `SlotEffects`,
`SlotSettling`, `SlotKeys`, `SlotStore`; `LineProfiles`, `LineSetters`, `LineReferences`,
`LineDiscovery`, `LineEffects`, `LineRuns`, `LineStore`; `Persistence`). Physical modem slots
are reconciled with hotplug reports; per-line settings live in a list that stands for a total
map; references move when a line changes its id; and concurrent setters save to a database and
a file under two locks.

**Event bridge** (`EventBridge`). A poller publishes each connection attempt once,
remembering at most 200 keys.

Where the source updates something in place, the model is a class or a loop proved equal
to a function, and the lemmas are about that function. `Options`, `Text` and `Sorting`
hold what the parts share.

## What turned out differently from the comments

- `backend/src/api/events.rs:84-86` and `backend/src/platform/db.rs:3880-3882` count on the
  receiver or on replay to cover every event. That holds when broadcasts leave in commit
  order. `publish_committed_app_event` sends after the database lock is released, so two
  transactions can broadcast in the other order, and then the earlier event is lost to a
  caught-up client for good (`BroadcastOrderMatters`).
- `backend/src/platform/config.rs:7004-7007` says a save carries forward an operator's hand
  edits to settings. The value written comes from memory, so it does not
  (`SaveOverwritesHandEdit`); comments and unknown nested keys are carried forward
  (`MinimalEdit`).
- `deploy/installer.py:275-304` deletes both work directories, and with them every backup,
  when the message at line 277 cannot be written or is interrupted: no rollback runs and its
  flag is still true. The same holds when an incomplete rollback is interrupted before line
  298 records it, or follows an interrupt that came after line 274. `OriginalCanBeLost` is a
  run of two faults; `Install` says exactly when an original is lost.
- `backend/src/platform/config_file.rs:94-95` says the first-time printer keeps serde's
  field order. The JSON map it walks is sorted by key, and so is the layout in `LayOut`; the
  round trip is proved for every order.
- `backend/src/platform/config_file.rs:388-417` prints an empty mapping or list under a key
  of a list entry as a bare key, and an empty list inside a list as a bare dash. Both read
  back as null (`EmptyInListIsLost`); `RoundTripExact` says exactly which trees survive. A
  first save is not read back before it is written, so it can spoil such a setting
  (`FirstSaveCanLose`, `FirstDocumentExact`). Today's settings
  (`backend/src/platform/config.rs:5325-5345`) have no container under a key of a list entry
  that can be empty, nor a list of lists, so the losses a first save can reach are texts, such
  as a `device_network.ddns.access_secret` with a line feed (`FirstSaveOfText`).
- `backend/src/platform/config.rs:5318-5322` says unknown keys are refused at the top level
  only. `backend/src/hardware/cellular/backends/config.rs:23-75` refuses them inside
  `cellular_backend` too, and some keys there have no default; a schema says both, section by
  section (`Struct`, `Presence`).
- `backend/src/platform/config_file.rs:457-479` leaves text such as `0x1F` or `.inf`
  unquoted, which the core schema reads as a number (`HexStringIsLost`), and text with a
  carriage return or with a tab that ends a plain scalar; it quotes a text with line feeds
  as it stands, which folds (`BrokenTextIsLost`). `StringSurvives` is the exact condition.

## Model

| member | source | states |
|---|---|---|
| EventLog.AfterSuffix | backend/src/platform/db.rs:3891-3919 | asking again from the id of any entry of an answer gives exactly the rest of that answer, so pages of history join without overlap or gap |
| EventLog.AfterGrows | backend/src/platform/db.rs:3891-3919 | events committed later only append to what a history query answers |
| EventLog.AfterDrop | backend/src/platform/db.rs:563-569 | deleting old rows that a query would not return does not change its answer |
| EventLog.RecentExactly | backend/src/platform/db.rs:3921-3945 | the opening page of a client without a starting id ascends and holds an event if and only if it is retained, of the line, and fewer than 100 such events are newer |
| EventLog.PageExactly | backend/src/platform/db.rs:3891-3919 | a history page ascends and holds an event if and only if it is retained, of the line, above the id asked for, and fewer than 500 such events are older |
| EventLog.RetainedExactly | backend/src/platform/db.rs:563-569 | an event is retained if and only if fewer than 10,000 events are newer |
| EventStream.GapFreeExactly | backend/src/api/events.rs:84-187 | when history reads are not behind retention, and with no assumption on broadcast order or on failing reads, a connection has no gap if and only if no live delivery in the run passes over a committed event of its line: with a starting id, what was emitted followed by what is still above the last id is the line's whole history above the start; without one, from the first emitted event on |
| EventStream.GapFreeByEmission | backend/src/api/events.rs:124-166 | in every environment, retention included, there is no gap if and only if no event, live or from a page, is handed out past a committed event of the line |
| EventStream.GapFreeRun | backend/src/api/events.rs:84-187 | derived from it: broadcasts that leave in commit order, with history reads that succeed and are not behind retention, never leave a gap |
| EventStream.CaughtUpExactly | backend/src/api/events.rs:124-184 | when history reads are not behind retention, and whatever the order of broadcasts and the reads that fail, a parked connection with no broadcast outstanding has handed over the whole history above its start if and only if no live delivery passed over an event of its line and its latest history read did not fail with something left that no broadcast will bring; a client without a starting id is asked the same when its first event arrives |
| EventStream.CaughtUpWhenIdle | backend/src/api/events.rs:149-166 | in an environment whose broadcasts leave in commit order and whose history reads succeed and are not behind retention, a parked connection with no broadcast outstanding has handed over every matching event |
| EventStream.ReconnectContinues | backend/src/api/events.rs:117-122 | two responses joined by the last id seen, the first with or without a starting id, hand over exactly what one unbroken response would have, whenever neither reads behind retention nor lets a live delivery pass over an event |
| EventStream.AlwaysTruthful | backend/src/api/events.rs:124-166 | with no assumption on order, failures or retention, ids handed over are strictly ascending, above the start, and each belongs to a committed event of the line |
| EventStream.LostForGood | backend/src/api/events.rs:159-163 | a matching event that was passed over never reaches this client again, whatever happens later |
| EventStream.LiveDeliveryExact | backend/src/api/events.rs:157-166 | a waiting queue of matching broadcasts is handed over whole if and only if it ascends from the last id, and leaves no gap if and only if what is handed over is the next stretch of the line's history |
| EventStream.BroadcastOrderMatters | backend/src/platform/db.rs:3880-3885 | two events committed in one order and broadcast in the other: the first is lost for good to a caught-up client |
| EventStream.PrunedPage | backend/src/platform/db.rs:563-569 | a history read gives the next page of the whole history, possibly empty, if and only if no row the client still needs was deleted |
| EventStream.LostToFailedReplay | backend/src/api/events.rs:167-184 | when the history read after a lag fails, the skipped events never reach the client |
| EventProgress.OpeningPageFirst | backend/src/api/events.rs:98-121 | a client whose first read succeeds is handed that page, in order and whole, before anything else, whatever else happens, and has it after as many turns |
| EventProgress.FreshClientGets | backend/src/api/events.rs:96-100 | a client without a starting id is handed exactly the newest 100 or fewer retained events of its line before anything live |
| EventProgress.StartsWhereAsked | backend/src/api/events.rs:95-108 | a client with a starting id is owed exactly the events of its line above that id, a negative one meaning the beginning |
| EventProgress.ShutdownDrains | backend/src/api/events.rs:118-122 | a shutdown ends the response after exactly what was already buffered, and a parked one at once without reading its queue |
| EventProgress.LagResumesAtOldest | backend/src/api/events.rs:167-184 | after a lag whose history read fails, the client is handed what the channel still holds, from the oldest broadcast on |
| EventProgress.FailedPageGoesLive | backend/src/api/events.rs:132-147 | a page that cannot be read ends the replay, and the client is handed every broadcast that waits for it |
| EventProgress.ReplayEnds | backend/src/api/events.rs:132-147 | a replay left to itself hands over everything retained above the last id, page by page, and then parks |
| EventProgress.CatchesUp | backend/src/api/events.rs:124-184 | after any sound run, once every event is broadcast and the others are quiet, so many turns bring the client the whole history of its line above its start |
| EventStream.Connection.Poll | backend/src/api/events.rs:116-188 | one pass of the loop, in place, is one turn of the state machine |
| EventStream.Connection.Serve | backend/src/api/events.rs:78-190 | a whole response against any interleaving follows the state machine, and is gap-free under exactly the two conditions above |
| Installer.Host.Install | deploy/installer.py:215-304 | refused exactly on the three service checks and then without effect; any other run leaves what `Ran` says: the transaction's outcome, with the stage of every item at a failure given by the index of the operation that failed, and the work directories gone exactly when a flag says so |
| Installer.Host.RunPromises | deploy/installer.py:215-304 | after every run that was not refused: until the cleanup begins each original is at its target or in its backup; every start happened after daemon-reload on an all-new or all-old version; done means all five items are new and the service is as requested; a completed rollback restores all five items and the service's running and enabled state and loses nothing at any moment; once the work directories are gone without the new version an original is lost if and only if no rollback completed and something was out of place; no fault means done, one fault loses nothing |
| Installer.Host.RunServes | deploy/installer.py:251-300 | done if and only if no operation of the transaction fails, where a health check fails when it does not find the service active; otherwise the failure is the first operation that does; no target changes under a running service, enabling and disabling find the new unit, and the service commands issued are exactly those of the attempt and, after a rollback, those that revert it |
| Installer.Host.LostExactly | deploy/installer.py:275-304 | when the notice of failure was stopped: item by item, an original is lost if and only if the operation that failed came after the rename that moves it aside, its replacement is not in place with the same content, and the cleanup, completed or stopped part way, did not spare its backup |
| Installer.DisplacedExactly | deploy/installer.py:255-262 | after any number of renames of the replacement loop, an original is out of place if and only if its own first rename is among them and it was not replaced by the same content |
| Installer.OriginalCanBeLost | deploy/installer.py:275-304 | a schedule of two faults, the second one stopping the notice of failure, after which a run of the installer has lost an original |
| Installer.Host.Transact | deploy/installer.py:251-300 | the attempt, and after a failure the recovery; no original is lost yet, the recovery is skipped if and only if the step right after the failure is stopped, the failure is the first operation that fails, activation and commit included, its index tells the stage of every item, and the service commands issued are known exactly |
| Installer.Host.Recover | deploy/installer.py:275-300 | says so, rolls back and records an incomplete rollback; the flag is left true exactly when the notice was stopped, the rollback completed, or the record was stopped |
| Installer.Host.ReplaceAll | deploy/installer.py:255-262 | every item begun is logged before it is touched, and wherever it stops each item is untouched, moved aside or replaced |
| Installer.Host.ReplaceOne | deploy/installer.py:258-262 | one item ends replaced with its original in the backup, or at a stage the rollback can undo |
| Installer.Host.Undo | deploy/installer.py:285-293 | from any stage one item comes back as it was, and while it fails its original is still in place or in the backup |
| Installer.Host.Rollback | deploy/installer.py:276-299 | if it completes, all items are original, the service runs exactly if it ran, and an enablement it added is gone; if it fails part way, no original is lost |
| Installer.Host.Activate | deploy/installer.py:263-273 | success with activation means enabled, active, and found active five times after the start; otherwise the last operation is the first that failed, a health check that found the service inactive included, and commands and flags are those of that many operations |
| Installer.Host.Cleanup | deploy/installer.py:301-304 | deletes staged files and backups and nothing else; completed or stopped by either of its two operations, each original is lost if and only if it was not in place and its backup was not spared |
| Installer.StagesLoseNothing | deploy/installer.py:257-262 | while every item is untouched, moved or replaced, each original is in place or in its backup |
| ConfigMerge.Merge | backend/src/platform/config_file.rs:211-272 | the in-place merge meets the merge relation: each key is kept, descended into, replaced, added or removed as the previous and desired values say, and surviving keys keep their relative order |
| ConfigMerge.Place | backend/src/platform/config_file.rs:221-230 | writing one desired key descends into an existing mapping and otherwise replaces the node |
| ConfigMerge.Render | backend/src/platform/config_file.rs:303-344 | a new subtree is a well-formed node that reads as the value it was made from |
| ConfigMerge.SetKeepsOrder | backend/src/platform/config_file.rs:276-289 | setting a key keeps the surviving keys in their original relative order |
| ConfigMerge.RemoveKeepsOrder | backend/src/platform/config_file.rs:266-270 | so does removing one |
| ConfigFile.ExactMerge | backend/src/platform/config_file.rs:245-272 | for arbitrary trees, merging with the file's own value as the baseline gives exactly the desired tree |
| ConfigFile.SerializeReads | backend/src/platform/config_file.rs:198-204 | reading what was serialized gives the value back, with omitted defaults filled in |
| ConfigFile.ReadConforms | backend/src/platform/config_file.rs:77-91 | a file of the right shape, required keys present and none unknown where they are refused, always reads as a complete value of its type |
| ConfigFile.UnknownAndMissingKeys | backend/src/platform/config.rs:5318-5345 | an unknown key is refused in a closed section and otherwise makes no difference; a missing required key is refused, and any other missing key reads as its default |
| ConfigFile.MergeReadsBack | backend/src/platform/config_file.rs:206-272 | merging into any readable file with the value it was read as, at any depth, reads back as the desired value |
| ConfigFile.SaveReadsBack | backend/src/platform/config_file.rs:173-195 | the read-back check before writing cannot reject a merge, and a file with only known top-level keys keeps only known ones |
| ConfigFile.ReadBackExactly | backend/src/platform/config_file.rs:185-195 | every save of a schema reads back if and only if no omittable field has a free-form default with entries; otherwise a readable file and a value exist that no merge can write |
| ConfigFile.MinimalEdit | backend/src/platform/config_file.rs:206-272 | a node whose path reads the same in the old and the new value, or is unknown to both, keeps its text and trivia at any depth |
| ConfigFile.SecondSaveIsIdle | backend/src/platform/config_file.rs:216-230 | merging the value a file already holds leaves the file as it is, trivia and order included |
| ConfigSave.ApplyUpdate | backend/src/platform/config_file.rs:151-196 | in JSON and for a YAML file with content the update always succeeds and reads back as the desired value, in YAML as a merge of the file; without content it is the first-time document, which reads back if and only if nothing in the value is lost by printing |
| ConfigSave.FirstDocumentExact | backend/src/platform/config_file.rs:99-140 | for every schema and every value with the key names and number texts its types give it, under any one-line comments, a first-time document is read, with its types, as the value it was printed from if and only if it holds no empty container where it is lost and no text that is, whatever the texts in it |
| ConfigSave.TypedReturn | backend/src/platform/config_file.rs:77-91 | the same at every place of a document: no typed read hides such a loss |
| ConfigSave.FirstSaveOfText | backend/src/platform/config_file.rs:169-171 | of the documents with one text setting, the first save keeps exactly those whose text is safe |
| ConfigSave.FirstSaveCanLose | backend/src/platform/config_file.rs:169-171 | a one-setting schema and a value of it whose first-time document is not read as that value |
| ConfigSave.SaveMain | backend/src/platform/config.rs:7019-7056 | fails exactly when the file cannot be read, does not parse, or has to be written and cannot be, and then leaves it alone; a file that already reads as the value is not written; the file is printed anew exactly when it is absent or blank and in YAML; an update reads back as the value; a first-time document does under the exact condition above |
| YamlScalars.QuotedReadsBack | backend/src/platform/config_file.rs:446-448 | a text between single quotes with its quotes doubled reads back if and only if it has no line break and no control character other than tabs |
| YamlScalars.StringSurvives | backend/src/platform/config_file.rs:441-479 | for every text: printed and read as a scalar it survives if and only if it is safe, which for bare text means printable, not cut or trimmed by a tab, and not a core-schema number that the quoting rule misses |
| YamlScalars.QuotedExactly | backend/src/platform/config_file.rs:450-479 | a text is quoted if and only if it is empty, a switch word or a number in any case, starts with one of the listed marks, ends blank or with a colon, or holds a line feed or something that ends a plain scalar |
| YamlScalars.DecimalHasForm | backend/src/platform/config_file.rs:457-459 | what is printed and read as a number has the core schema's form: sign, digits with a point, exponent |
| YamlScalars.FormIsDecimal | backend/src/platform/config_file.rs:457-459 | and everything of that form is |
| YamlScalars.WordsAreQuoted | backend/src/platform/config_file.rs:453-459 | switch words and number words are quoted in any case |
| YamlScalars.HexStringIsLost | backend/src/platform/config_file.rs:457-479 | such a string exists, is printed bare, and reads as a number |
| YamlFolding.BrokenTextIsLost | backend/src/platform/config_file.rs:446-448 | quoted text survives line folding if and only if it has no line break, be it a line feed or a carriage return |
| YamlRoundTrip.FieldsBack | backend/src/platform/config_file.rs:361-386 | reading printed fields consumes exactly their lines, whatever less indented lines follow |
| YamlRoundTrip.ItemsBack | backend/src/platform/config_file.rs:388-417 | the same for list entries, whose compact mappings stand two columns behind the dash |
| YamlDocument.LineBack | backend/src/platform/config_file.rs:361-417 | every printed line is read as the line it was printed from, whatever text it holds |
| YamlDocument.SplitBack | backend/src/platform/config_file.rs:446-448 | printed lines come apart again from the document's text, a quoted text over several lines whole |
| YamlDocument.QuotedLineCloses | backend/src/platform/config_file.rs:446-448 | a quoted text is left open at each of its own line feeds and closed at its end, quotes inside it included |
| YamlDocument.DocumentReads | backend/src/platform/config_file.rs:99-140 | a whole first-time document, header and annotations included, reads back as the printed settings with the losses that `AfterFields` names and no others |
| YamlDocument.RoundTripExact | backend/src/platform/config_file.rs:361-479 | a document reads back unchanged if and only if no list entry holds an empty container under a key, no list holds an empty list, and every string survives |
| YamlLayout.SettingsStandUnderComments | backend/src/platform/config_file.rs:121-132 | in a first-time document every setting stands under the comment lines of its own key and before a blank line, between the settings before and after it |
| YamlLayout.AnnotationExactly | backend/src/platform/config_file.rs:122-126 | those comment lines are the ones of the key's first mention, or none |
| YamlLayout.EntryStepped | backend/src/platform/config_file.rs:361-417 | every printed line is an even number of columns in, and at most one level deeper than the content of the line before |
| YamlSettings.ReadingIs | backend/src/platform/config_file.rs:361-433 | read as settings, a printed value is the original with exactly the named losses, whatever the order of its fields |
| YamlSettings.ReturnedSurvives | backend/src/platform/config_file.rs:361-433 | a settings value comes back unchanged if and only if it survives at its place |
| YamlSettings.LayOut | backend/src/platform/config_file.rs:109-125 | a settings value is laid out for the printer with its keys in order and nothing added or dropped |
| YamlDocument.EmptyInListIsLost | backend/src/platform/config_file.rs:402-405 | an empty mapping under a key of a list entry reads back as null |
| YamlEmitter.Emitter.PrintEntry | backend/src/platform/config_file.rs:361-386 | the recursive printer appends exactly the text of the entry's lines |
| YamlEmitter.Emitter.PrintItem | backend/src/platform/config_file.rs:388-417 | so does the printer of list entries |
| YamlEmitter.Emitter.PrintItemFields | backend/src/platform/config_file.rs:391-407 | the loop over an entry's fields gives the dash to the first and two columns to the others |
| YamlEmitter.Emitter.PrintBody | backend/src/platform/config_file.rs:419-433 | so does the printer of nested bodies |
| YamlEmitter.Emitter.RenderDocument | backend/src/platform/config_file.rs:99-140 | the loops over header and settings produce the document of which the round trip is proved |
| SlotOrders.OrderRepairExact | backend/src/platform/config.rs:6066-6103 | from an arbitrary stored list one call leaves positive, distinct, ascending orders if and only if there is room above the largest order for every entry it renumbers |
| SlotOrders.FirstHolderKeepsOrder | backend/src/platform/config.rs:6081-6087 | the first entry with a positive order keeps it, with its name and hardware |
| SlotOrders.RepairDistinct | backend/src/platform/config.rs:6081-6087 | with room above the next order the repair pass makes every order positive and distinct |
| SlotOrders.RepairOverflows | backend/src/platform/config.rs:6084-6085 | without that room two entries end with the same order |
| SlotStability.SlotsAreStable | backend/src/platform/config.rs:5950-6119 | a call on a well-formed list keeps it well formed and ascending, keeps every known slot's key, order and label, and adds exactly the new slots |
| SlotStability.AddedAreNumbered | backend/src/platform/config.rs:6037-6064 | new slots get consecutive orders from the maximum in sorted observation order, default labels and keys not known before |
| SlotStability.AddedAreObserved | backend/src/platform/config.rs:6037-6064 | every named observation ends up with a slot, and every new slot was observed |
| SlotStability.StabilityIsExact | backend/src/platform/config.rs:6029-6064 | the list stays well formed if and only if the largest order plus the new slots fits in 32 bits |
| SlotStability.StableOverRuns | backend/src/platform/config.rs:5946-5949 | over any run of calls with any observations no slot is dropped and none changes its key, order or label |
| SlotStability.MapKeyInjective | backend/src/platform/config.rs:6105-6111 | the `slot#uimN` text determines slot and SIM position |
| SlotEffects.NewSlotsInOrder | backend/src/platform/config.rs:5985-6064 | of two slots added by one call, the one with an observation before every observation of the other, by code points of the slot id and then SIM position, has the smaller order |
| SlotEffects.NewSlotsInKeyOrder | backend/src/platform/config.rs:5985-6064 | so when slot ids are trimmed, new slots are numbered by slot id and SIM position |
| SlotEffects.NewSlotRecords | backend/src/platform/config.rs:6046-6061 | a new slot takes hardware key, equipment and time from the first observation of its key and is not retired |
| SlotEffects.AdoptExactly | backend/src/platform/config.rs:5991-6027 | in an arbitrary list the first entry with the observed name, or with none and an offered hardware key, at the same SIM position takes the observation over, and no other entry changes |
| SlotEffects.NormalizeExactly | backend/src/platform/config.rs:5958-5971 | every stored entry enters the call with its names trimmed and a position of at least one |
| SlotEffects.KnownSlotTakesOver | backend/src/platform/config.rs:6005-6027 | a known slot that one observation matches takes its equipment, is in service again, keeps its own hardware key if it has one, and is marked as seen only when the equipment changed |
| SlotEffects.MissingSlotIsKept | backend/src/platform/config.rs:5947-5949 | a known slot that nothing in the report matches stays as it was |
| SlotEffects.RepairedExactly | backend/src/platform/config.rs:6081-6097 | with room, an entry of an arbitrary stored list keeps its order if it is the first to have it and otherwise gets the next one above the maximum, and its label is trimmed or made from the order |
| SlotEffects.SortedInOrder | backend/src/platform/config.rs:6075-6080 | where the first means smallest slot id and then hardware key, by code points |
| SlotEffects.KeepFirstExactly | backend/src/platform/config.rs:5972-5983 | a stored entry is kept if and only if it has an identity that no earlier entry has, and those kept stay in order |
| SlotSettling.CleanCallOnlySorts | backend/src/platform/config.rs:5956-6117 | a call that asks for no save has at most sorted the entries |
| SlotSettling.FirstCallSettles | backend/src/platform/config.rs:5991-6027 | after a report of trimmed, distinct observations every reported slot has the reported equipment, is not retired, and has a hardware key if the report offers one |
| SlotSettling.SecondCallIsIdle | backend/src/platform/config.rs:5950-6119 | reporting the same hardware again at any later time changes nothing, and asks for a save if and only if an observed slot has no hardware key |
| SlotKeys.AdoptKeepsKeys | backend/src/platform/config.rs:5991-6007 | adopting an observation makes a duplicate key if and only if an unnamed entry takes it although another entry already has its name |
| SlotKeys.ReconcileKeysExact | backend/src/platform/config.rs:5973-6064 | one call ends with one entry per slot if and only if no observation was taken that way |
| SlotKeys.NextCallDropsDuplicate | backend/src/platform/config.rs:5972-6007 | a duplicate is gone after the next call whose report offers no name to an unnamed entry, whatever else it reports |
| SlotKeys.DuplicateHappens | backend/src/platform/config.rs:5993-6007 | a two-entry list and one report that make a duplicate |
| SlotKeys.MapIsExact | backend/src/platform/config.rs:6105-6111 | with one entry per slot each named entry is found in the returned map under its own key |
| SlotKeys.MapHoldsEntries | backend/src/platform/config.rs:6105-6111 | the returned map holds named entries of the list, each under its own key, and nothing else |
| SlotStore.ModemSlotStore.ReconcileModemSlots | backend/src/platform/config.rs:5950-6119 | the passes run in place give the list, the dirty flag and the map of the specification |
| SlotStore.ModemSlotStore.NormalizeIdentities | backend/src/platform/config.rs:5958-5971 | the first loop trims and defaults every entry, and reports a change exactly when there was one |
| SlotStore.ModemSlotStore.RetainFirst | backend/src/platform/config.rs:5972-5983 | the retain pass keeps the first entry of each identity in order |
| SlotStore.ModemSlotStore.AdoptObserved | backend/src/platform/config.rs:5991-6027 | the adoption loop over sorted observations |
| SlotStore.ModemSlotStore.AppendUnknown | backend/src/platform/config.rs:6029-6064 | the loop that appends slots seen for the first time |
| SlotStore.ModemSlotStore.RepairOrders | backend/src/platform/config.rs:6081-6097 | the loop that repairs orders and labels |
| LineProfiles.PutRefines | backend/src/platform/config.rs:6428-6458 | find-or-insert, store and sort updates a total map at one line and nowhere else, and keeps ids unique |
| LineProfiles.EnsuredRefines | backend/src/platform/config.rs:6440-6449 | giving a line an explicit default entry is invisible to every reader |
| LineProfiles.NormalizedIsNormal | backend/src/platform/config.rs:5222-5243 | normalizing yields both IMS kinds exactly once and leaves exactly such policies alone |
| LineProfiles.FirstMentionWins | backend/src/platform/config.rs:5225-5230 | each kind keeps the switch of its first mention |
| LineEffects.NormalizedExactly | backend/src/platform/config.rs:5222-5243 | the normalized order is the two kinds by first mention, each with its first switch, and a kind not mentioned last and on, VoWiFi before cellular |
| LineEffects.NamesExactly | backend/src/platform/config.rs:4806-4810 | a line id is `line-` and 32 hexadecimal digits, and a trunk binding letters, digits and six marks |
| LineEffects.SettersDo | backend/src/platform/config.rs:6263-6602 | after an accepted setter the stored line has what was asked for in its field, and nothing else about it has changed but the video mirrors |
| LineEffects.AirplaneIsSet | backend/src/platform/config.rs:6566-6602 | for every valid line and either position the stored switch ends in that position, with both cellular intents off when it is on, and every other field but the mirrors as before |
| LineEffects.RefusedExactly | backend/src/platform/config.rs:6263-6602 | a setter is refused if and only if a reason applies, with the first that does |
| LineEffects.ReadsMirrored | backend/src/platform/config.rs:6250-6261 | a line reads as it is stored, with the mirrors up to date and the one preference there is |
| LineSetters.SetRefinesMap | backend/src/platform/config.rs:6263-6602 | every setter acts as an update at one line of the map or leaves the map alone |
| LineSetters.SetTrunkRefinesMap | backend/src/platform/config.rs:6667-6742 | so does the trunk setter, scoped or not |
| LineSetters.OtherLinesUntouched | backend/src/platform/config.rs:6250-6261 | no setter changes what is read for another line |
| LineSetters.RefusedTrunkLeavesDefault | backend/src/platform/config.rs:6678-6732 | a refused trunk update appends a default entry exactly for a valid line without one, unsorted, and changes no read |
| LineSetters.TrunkAcceptedExactly | backend/src/platform/config.rs:6667-6732 | a trunk is accepted if and only if its bindings are valid and, when on, its line is enabled, it has a host, credentials to register with and a port of its own among the lines in scope; an empty secret keeps the stored one |
| LineSetters.AcceptedPortIsFree | backend/src/platform/config.rs:6718-6731 | after a successful set of a trunk that is on, its non-zero port differs from that of every other line in scope |
| LineEffects.TrunkIsStored | backend/src/platform/config.rs:6689-6694 | an accepted trunk is stored as given, each binding trimmed and an empty secret replaced by the stored one, and nothing else about the line changes |
| LineEffects.TrunkRefusedExactly | backend/src/platform/config.rs:6674-6731 | a trunk is refused if and only if a reason applies, with the first that does, the port being checked over all lines in scope |
| LineEffects.MigrationMoves | backend/src/platform/config.rs:6162-6188 | every task and rule that names an older id of the line names the line afterwards and no other target changes; a rule's targets stay in the order of first mention, without repeats |
| LineEffects.MigrationInherits | backend/src/platform/config.rs:6134-6160 | a line without settings takes over those of the first stored line with an older id of it, and no other line changes |
| LineEffects.ReaderMigrationMoves | backend/src/platform/config.rs:6201-6248 | the same of a reader's references |
| LineReferences.MigrationIsExact | backend/src/platform/config.rs:6124-6196 | the result is true if and only if something changed, and no alias is left in any task or rule |
| LineReferences.SecondMigrationIsIdle | backend/src/platform/config.rs:6124-6196 | a repeat changes nothing and returns false |
| LineReferences.DedupCommutes | backend/src/platform/config.rs:6172-6184 | dropping repeats before or after renaming gives the same list |
| LineReferences.MigrationsCompose | backend/src/platform/config.rs:6172-6188 | on rule targets, migrating to B and then on to C equals one migration to C |
| LineReferences.ReaderMigrationIsExact | backend/src/platform/config.rs:6201-6248 | reader references: true exactly on change, none left, idle when repeated |
| LineDiscovery.DiscoveryRefinesMap | backend/src/platform/config.rs:5880-5943 | discovery normalizes every line's voice order, lets the one line present take the global reader setting, and moves nothing else |
| LineEffects.DiscoveryDoes | backend/src/platform/config.rs:5880-5943 | the reader setting goes to the one valid line discovered, if it has none, and is then gone; otherwise it stays, and nothing but voice orders changes |
| LineDiscovery.DiscoveredHaveEntries | backend/src/platform/config.rs:5901-5912 | every valid discovered id ends up with an entry of its own |
| LineDiscovery.SecondDiscoveryIsIdle | backend/src/platform/config.rs:5880-5945 | discovering the same lines again changes nothing and asks for no save |
| LineDiscovery.CleanDiscoveryOnlySorts | backend/src/platform/config.rs:5893-5945 | a discovery that asks for no save has at most sorted the entries |
| LineRuns.SoundOverRuns | backend/src/platform/config.rs:4745-4748 | over every run of setters, discoveries and migrations airplane mode leaves no cellular intent on and the video flags mirror the access legs |
| LineRuns.AirplaneHolds | backend/src/platform/config.rs:6285-6294 | over every run that does not switch it off, a line's airplane mode stays on with both cellular intents off, and switching either on is refused |
| LineRuns.PortsApartOverRuns | backend/src/platform/config.rs:6646-6742 | over every run without migration and with unscoped trunk checks, lines with a trunk on use different, non-zero ports |
| LineRuns.MigrationPortsExact | backend/src/platform/config.rs:6141-6160 | migration keeps the ports apart if and only if it copies no trunk that is on |
| LineRuns.ScopedPortsExact | backend/src/platform/config.rs:6718-6731 | a trunk checked only against active lines keeps the ports apart if and only if no other line already uses its port |
| LineRuns.InheritedRefinesMap | backend/src/platform/config.rs:6141-6160 | migration gives a line without a profile a copy of the first aliased one and leaves every other line alone |
| LineStore.NormalizeVoicePath | backend/src/platform/config.rs:5222-5243 | the loop with two local lists computes the normalized order |
| LineStore.RewriteTargets | backend/src/platform/config.rs:6172-6184 | the loop over one rule's targets computes the rewritten list |
| LineStore.LineConfig.SetCellularIms | backend/src/platform/config.rs:6263-6303 | the in-place setter has the outcome of the specification, refusals included |
| LineStore.LineConfig.SetVowifi | backend/src/platform/config.rs:6378-6414 | the same for Wi-Fi calling |
| LineStore.LineConfig.SetData | backend/src/platform/config.rs:6460-6497 | the same for data |
| LineStore.LineConfig.SetAirplane | backend/src/platform/config.rs:6566-6602 | the same for airplane mode, of which `AirplaneIsSet` says what it does |
| LineStore.LineConfig.UpdateLineProfile | backend/src/platform/config.rs:6428-6458 | the same for the setters that replace one field |
| LineStore.LineConfig.Perform | backend/src/platform/config.rs:5880-6742 | the setters, discovery and migration in place take exactly the steps of the runs that the results of `LineRuns` are about |
| LineStore.LineConfig.SetTrunkProfile | backend/src/platform/config.rs:6667-6742 | the same for trunks, with every check in its order |
| LineStore.LineConfig.ReconcileLineProfiles | backend/src/platform/config.rs:5880-5945 | discovery in place |
| LineStore.LineConfig.MigrateLineProfileAliases | backend/src/platform/config.rs:6124-6196 | migration in place, refused without effect for an invalid id |
| LineStore.LineConfig.MigrateStandaloneReader | backend/src/platform/config.rs:6201-6248 | the same for reader references |
| Persistence.StoresNeverGoBack | backend/src/platform/config.rs:7008-7056 | in every interleaving of setters, saves, failures and hand edits neither store returns to an older version, and the database is level with the file or ahead of it at every moment |
| Persistence.OkIsDurable | backend/src/platform/config.rs:7008-7017 | once a setter has returned Ok both stores hold a snapshot with its change for ever |
| Persistence.ReportIsExact | backend/src/platform/config.rs:7008-7017 | over every run a call has returned Ok if and only if its latest moves are its two writes, both successful, and an error if and only if one of the two failed |
| Persistence.CallReturns | backend/src/platform/config.rs:7008-7017 | a whole call with others at work between any two of its steps returns, Ok if and only if neither write fails, and then both stores hold memory as the call read it, with its own change |
| Persistence.StrayChangeIsSaved | backend/src/platform/config.rs:6685-6721 | a change of memory that nobody saved goes to both stores with the next call that returns Ok |
| Persistence.RestartAfterLastOk | backend/src/platform/config.rs:5394-5446 | if the call that made the latest change returned Ok and nobody edited the file, a restart gives back memory exactly |
| Persistence.RestartAfterCrash | backend/src/platform/config.rs:6989-7003 | after a crash at any point a restart joins halves of two versions, the file's no newer than the database's, both at least as new as every change reported Ok |
| Persistence.SaveOverwritesHandEdit | backend/src/platform/config.rs:7004-7007 | once a save has succeeded after a hand edit to a setting, everything is as if the edit had never been made, contrary to the comment; until another edit, the edit is in the file if and only if no save has written the file since |
| Persistence.FailedChangeIsCarriedOn | backend/src/platform/config.rs:7008-7017 | a change whose save failed stays in memory and is carried by the next save of a later change that succeeds |
| EventBridge.PublishesExactlyOnce | backend/src/main.rs:99-124 | for any run of polls over windows of at most 200 distinct attempts, exactly the attempts some poll saw are published, each once, in history order, and the queue holds the newest of them |
| EventBridge.LimitIsExact | backend/src/main.rs:121-123 | polling one list twice publishes nothing the second time if and only if the list is no longer than the queue |
| EventBridge.Bridge.PollLine | backend/src/main.rs:105-124 | one line's turn publishes what the specification says, touches no other line, and never leaves more than 200 keys |

## Left out

- YamlDocument.RoundTripExact: keys are letters, digits and underscores and are read as text, also one such as `true` or `12` that the core schema would resolve otherwise, and comments are on one line, as in the settings' own types and fixed comments. The reference reader goes on with a quoted text wherever its lines start; a stricter one refuses a line that is indented less than its parent, and that text is lost either way.
- YamlScalars.StringSurvives: the reader resolves scalars without knowing the field's type; a typed reader may accept a bare `0x1F` where it expects text. A carriage return in bare text is folded as if the line below were indented enough.
- ConfigFile.ReadConforms: scalars carry no type, so a word where the settings want a number is not refused; an optional section is one opaque value.
- ConfigSave.ApplyUpdate: requires the schema condition that `ReadBackExactly` shows to be necessary; the JSON format is a canonical rewrite; for a first-time document the exact condition is stated for what the settings' types and the fixed comments guarantee, `Regular`.
- ConfigSave.SaveMain: whether a first-time document is valid YAML is decided by the reference reader, as the library that checks it is not part of this model.
- EventStream.CaughtUpWhenIdle: stated for the environment `SoundRun` describes; `CaughtUpExactly` is the condition in any other.
- SlotStability.StableOverRuns: the clock is an opaque text per call, and the source reads it once per entry.
- SlotSettling.SecondCallIsIdle: a report that names one slot twice, or with surrounding blanks, is not covered by the repeat.
- EventBridge.PublishesExactlyOnce: distinct attempts have distinct `sequence:at` keys; sequence numbers restart when the list is cleared, and then only the time tells attempts apart.
- Persistence.SaveOverwritesHandEdit: each store write is one atomic step, so an edit between the file's read and its rename inside one save is not modelled.
- Installer: the checks of the package before staging, directory creation, permissions, and the closing messages after the cleanup.
- Validators of a profile selection, the data proxy, Wi-Fi calling and the card reader: their verdict is a parameter of the setters.
- The global reader setting is one opaque optional value; which of its parts are valid is not modelled.
- `set_line_vowifi_connection_enabled` and `set_line_trunk_enabled`: each is a read followed by a set, and not atomic.
- The setters' and migrations' calls of `save` are modelled in `Persistence` only, where a configuration is one opaque value per section.
- `write_atomically`: an atomic rename; its temporary file, permissions and the Windows fallback are not modelled.
- SMS path normalization, APN, IMS access preference and the other single-field settings: opaque values with no rule between them.
- Template migration, legacy notification conversion, validation ranges and load-time defaults.
- HTTP routing, authentication and the handlers around these components; SQLite, YAML and JSON libraries; the trunk status fingerprint in the event bridge.
