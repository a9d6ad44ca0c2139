# Verified model of workpane's stateful core

A Dafny model of the parts of workpane that change state under interleavings, crashes and failures, and of the fast
forms that have to agree with simple specifications. Each module follows one component of `src/`:

| module | component |
|---|---|
| `Foundation` | vocabulary shared by the other modules |
| `Utf8`, `ProcessText` | UTF-8 validation and truncation, and the incremental decoder of program output |
| `ProcessMailbox`, `ProcessEvents`, `ProcessProgram`, `ProcessRuns`, `ProcessLaws`, `ProcessHost`, `ProcessDelivery` | the output pipeline: the shared bounded mailbox, what owners hear, one program as a state machine, its runs and what they do step by step, the host of all programs, and producers that go on while it delivers |
| `DatabaseBootstrap` | the staged import of a configuration, stopped anywhere and resumed |
| `PreferenceStore` | optimistic preferences over the database executor and the queue of the interface thread |
| `MiniaudioOutput` | sounds between the interface thread and the worker that opens them |
| `FileStaging` | private folders created and removed by a first-in first-out pool of workers |
| `LogService` | log entries that wait for a consumer behind two locks |
| `TextSearch`, `TreeWalk` | searching folded files as a whole, and walking a tree with a stack of iterators |
| `Base64`, `Timestamp` | the Base64 coder with its 32-bit accumulator, and stored timestamps over the Gregorian calendar |
| `PluginDatabase`, `ForeignKeys`, `PluginNamespace` | migrations, transactions and erasure of plugin data, the references between rows that can refuse a DROP, and the prefixes and the authorizer that keep plugins apart |

Objects that the source updates in place are classes with the same fields. Where several threads take turns, every
section under a lock is one method, a pure function of the state specifies it, and lemmas about runs of those functions
carry the properties over every interleaving. Calls into the machine (renames, opening a sound, a statement of SQLite)
succeed or fail as a parameter says, so a property holds for every pattern of failures. Bytes are integers from 0 to 255;
shifts are multiplications and divisions with the 32-bit wrap written out.

Some findings the proofs made explicit, each stated as a lemma with the exact condition or a counterexample:

- an instant is read back from its stored text if and only if its year has four digits, which is a range of milliseconds
  a caller can check (`Timestamp.RangeOfYears`, `Timestamp.AcceptedAgain`);
- a document written now ends in agreement between readers and table, whatever succeeds or fails, if and only if no erase
  of its plugin is undecided or succeeded without being completed, or the document is empty
  (`PreferenceStore.WriteAgreesIff`; `PreferenceStore.WriteIsLost` is the failing side). The callers keep away from it by
  refusing to erase the data of a running plugin (`plugin_running`, src/scripting/StorageHost.cpp:227-229) and accepting
  writes of known plugins only (src/scripting/StorageHost.cpp:129-131); both look at the moment of the call, not at the
  moment the erase completes;
- erasing a plugin on a machine without failures, where the drops set off nothing but their keys, succeeds if and only if
  no listed table is dropped while rows that stand at that moment refer to it with an action that forbids it, or while a
  cascade from it reaches a table with a key to one that was dropped before, and no deferred key is left broken
  (`PluginDatabase.Erase`). The order in which the tables of the plugin are listed, which is that of the schema, can
  refuse it (`ForeignKeys.OrderDecides`, `ForeignKeys.CascadeStrands`), though not with deferred keys alone
  (`ForeignKeys.DeferredFree`). Where all foreign keys come from migrations no other plugin can refuse it
  (`PluginDatabase.OnlyOwnRowsRefuse`); a row that refers into the plugin from outside can
  (`PluginDatabase.ForeignRowKeeps`), and it takes a table that no migration made to hold one;
- the previous database of a rejected import keeps the log it arrived with if and only if no move of it was stopped between
  its main file and that log (`DatabaseBootstrap.Directory.Starts`, `DatabaseBootstrap.LogIsLost`), although moving both
  together is what src/persistence/DatabaseBootstrap.cpp:162 says the move is for;
- a text with a carriage return is answered as standing nowhere, which is the answer of a search line by line if and only
  if no match is asked for or no line of a searched file holds it (`TextSearch.AnswerIsLineByLine`,
  `TextSearch.ReturnIsLost`);
- a log consumer that replaces another while entries wait is called as often as calls were owed, and once more if the
  entries were not announced yet, so possibly never (`LogService.ReplacementIsCalled`); the bound on undelivered entries
  holds all through a run if and only if no delivery is cleared while more are waiting
  (`LogService.BoundedIffClearedInTime`);
- four pulled programs that nobody reads can make every other program wait, and three cannot
  (`ProcessHost.FourBlockEverybody`, `ProcessHost.FourCanBlock`, `ProcessHost.ThreeNeverBlock`);
- a staged log can outlive an interrupted import, and a next import begins like the first one if and only if no such log
  lies at the staged name (`DatabaseBootstrap.NextArrives`, `DatabaseBootstrap.StagedLogMayRemain`).

Three standards are cited by name: RFC 3629 and section 3.9 of the Unicode Standard for UTF-8 and its substitution,
sections 3.5 and 4 of RFC 4648 for Base64, and section 5.6 of RFC 3339, fixed to 24 characters, for timestamps.

`dafny verify dfyconfig.toml` checks the whole project.

## Model

| member | source | states |
|---|---|---|
| `Utf8.WellFormedIffEncoding` | src/text/Utf8Helper.cpp:7-61 | a byte string passes the table of leads and continuations if and only if it is the RFC 3629 encoding of some list of Unicode scalar values |
| `Utf8.EncodingIsWellFormed` | src/text/Utf8Helper.cpp:7-38 | every list of scalar values encodes to well-formed bytes, and the bytes spell exactly that list again |
| `Utf8.WellFormedConcat` | src/text/Utf8Helper.cpp:40-61 | behind a well-formed text the whole is well formed exactly when the rest is |
| `Utf8.WellFormedCut` | src/text/Utf8Helper.cpp:40-61 | a well-formed text may be cut before any ASCII byte with both halves well formed |
| `Utf8.Valid` | src/text/Utf8Helper.cpp:40-61 | the loop answers true exactly for the encodings of lists of scalar values, overlong forms, surrogates and values beyond Unicode excluded |
| `Utf8.Truncated` | src/text/Utf8Helper.cpp:63-72 | the answer is the text up to the span of that many leads, a stray byte counting as one character, and never reaches beyond the text |
| `Utf8.TruncatedKeepsCharacters` | src/text/Utf8Helper.cpp:63-72 | of well-formed text truncation keeps exactly the first so many scalar values, never a character cut in two |
| `ProcessText.MatchedIsLongest` | src/process/ProcessText.cpp:16-22 | the inner loop matches the longest front that can open a character |
| `ProcessText.SubstitutionStep` | src/process/ProcessText.cpp:24-36 | one look at the front does what one step of the substitution of maximal subparts of section 3.9 of the Unicode Standard does |
| `ProcessText.DecodeIsSubstitution` | src/process/ProcessText.cpp:10-53 | the answers of `take` with that of `finish` are the one text the standard allows for the bytes, no other |
| `ProcessText.DecodeAnswers` | src/process/ProcessText.cpp:30-41 | every answer is UTF-8, and what is held back is the proper opening of one character, at most three bytes |
| `ProcessText.DecodeUnchangedIffText` | src/process/ProcessText.cpp:10-53 | decoding gives the bytes back unchanged if and only if they are UTF-8 |
| `ProcessText.LookStable` | src/process/ProcessText.cpp:30-36 | bytes that arrive later change nothing about a place the decoder has passed |
| `ProcessText.DecodeContinues` | src/process/ProcessText.cpp:10-42 | decoding what was held followed by what arrives goes on exactly where the first read stopped |
| `ProcessText.ReadsDecodeWhole` | src/process/ProcessText.cpp:10-42 | for every cut of the bytes into reads the answers join to, and the held bytes are, those of one read of everything |
| `ProcessText.ReadsAreSubstitution` | src/process/ProcessText.cpp:10-53 | however a program's bytes are cut into reads, its whole text is the Unicode substitution of all of them |
| `ProcessText.ProcessText.Take` | src/process/ProcessText.cpp:10-42 | the loop answers and keeps what the decoding of the held and the new bytes says |
| `ProcessText.ProcessText.Finish` | src/process/ProcessText.cpp:45-53 | what is held becomes one replacement, and nothing is held any more |
| `ProcessMailbox.AppendedLast` | src/scripting/ProcessHost.cpp:153-163 | whether or not new bytes join the last chunk, they come after everything the mailbox holds of the program, and its counter and offset stay right |
| `ProcessMailbox.ChunksOfStreams` | src/scripting/ProcessHost.cpp:153-163 | bytes of the stream written last join its chunk, and others make a chunk of their own |
| `ProcessMailbox.DrainConserves` | src/scripting/ProcessHost.cpp:467-494 | a visit takes as many bytes as were asked for or are there, and what it took followed by what it left is what was held, per byte and stream, across merged, partly read and whole chunks |
| `ProcessMailbox.DrainWhole` | src/scripting/ProcessHost.cpp:469-494 | asking for the counter takes everything although it counts the read part of the front chunk too |
| `ProcessMailbox.DrainedIffEmpty` | src/scripting/ProcessHost.cpp:496-501 | the entry is emptied exactly when its last byte was taken, which is when its end may leave with it |
| `ProcessEvents.RenderTextDecodes` | src/scripting/ProcessHost.cpp:522-539 | however chunks cut and mix the streams, the text sent of a stream is the decoding of that stream's own bytes |
| `ProcessEvents.FinishTextEnds` | src/scripting/ProcessHost.cpp:541-547 | the end of a program sends of each stream the ending of what its decoder held |
| `ProcessEvents.RenderBinaryCarries` | src/scripting/ProcessHost.cpp:529-532 | the Base64 contents sent carry exactly the chunks taken, byte for byte with their streams |
| `ProcessRuns.LaunchedSound` | src/scripting/ProcessHost.cpp:119-205 | a program starts with every invariant of the pipeline, whether or not its launch succeeded |
| `ProcessRuns.AppendSound` | src/scripting/ProcessHost.cpp:136-167 | the output callback keeps conservation, the 1 MiB and 1024-chunk bounds of a pulled program, and the reader and exit protocol |
| `ProcessRuns.ExitSound` | src/scripting/ProcessHost.cpp:168-177 | the exit callback keeps every invariant, and the end stays in the mailbox until the release |
| `ProcessRuns.ReadSound` | src/scripting/ProcessHost.cpp:286-316 | an accepted read leaves exactly one reader outstanding, and every earlier one answered once and in order |
| `ProcessRuns.StopSound` | src/scripting/ProcessHost.cpp:337-358 | stopping keeps every invariant of the pipeline; what it gives up is said by `ProcessLaws.StopGivesUp` |
| `ProcessRuns.ForgetSound` | src/scripting/ProcessHost.cpp:360-389 | withdrawing an owner answers its outstanding reader once and leaves none |
| `ProcessRuns.ReplySize` | src/scripting/ProcessHost.cpp:469-494 | a reply carries at most `maximum` bytes and is empty only when it says ended |
| `ProcessRuns.DeliverSound` | src/scripting/ProcessHost.cpp:452-575 | a delivery keeps conservation, answers each reader at most once within its bound, and tells the end only after all output was delivered, together with the release |
| `ProcessRuns.DeliverSettles` | src/scripting/ProcessHost.cpp:458-505 | after a delivery nothing is left that another one without a new read would take |
| `ProcessRuns.RunSound` | src/scripting/ProcessHost.cpp:119-575 | every invariant holds after every sequence of appends, exits, reads, stops, withdrawals and deliveries |
| `ProcessRuns.ReadersAnswered` | src/scripting/ProcessHost.cpp:286-389 | in every run each accepted read is answered at most once and in order, with at most `maximum` bytes and with none only at the end or on a withdrawal, and no program is released with a reader outstanding |
| `ProcessRuns.EndToldLast` | src/scripting/ProcessHost.cpp:496-575 | in every run the end is told only after all output left the mailbox, together with the release, and nothing follows the exit notice |
| `ProcessRuns.BytesConserved` | src/scripting/ProcessHost.cpp:136-167 | in every run of a program read as bytes and neither stopped nor forgotten, the bytes its owner received followed by what the mailbox holds are exactly what it wrote |
| `ProcessRuns.TextConserved` | src/scripting/ProcessHost.cpp:509-547 | in every run of a program read as text the text received of a stream is the decoding of the bytes taken, and once the end is told it is the Unicode substitution of everything written there |
| `ProcessLaws.DeliverClears` | src/scripting/ProcessHost.cpp:452-575 | a delivery leaves nothing in the mailbox of a program whose output does not wait for reads: all it wrote is taken, and with its end it is released and its owner, unless withdrawn, told last |
| `ProcessLaws.DeliverAnswers` | src/scripting/ProcessHost.cpp:458-560 | a program read on demand is left alone without a read or without anything to answer it with; otherwise the read gets exactly the next bytes, as many as it asks for or as there are, and the end with the last of them |
| `ProcessLaws.StopGivesUp` | src/scripting/ProcessHost.cpp:337-358 | behind a stop a program read on demand has given up all its output, and was released and its owner told if its end was there; any other program is left as a delivery leaves it |
| `ProcessLaws.ForgetRetires` | src/scripting/ProcessHost.cpp:360-389 | behind a withdrawal nothing is left in the mailbox, the read that waited was withdrawn, nothing else was told, and the program is released exactly with its end |
| `ProcessLaws.ReadIsAnswered` | src/scripting/ProcessHost.cpp:286-316 | an accepted read is answered at once from what the mailbox holds, or waits |
| `ProcessLaws.HistoryOfRun` | src/scripting/ProcessHost.cpp:119-575 | what a program is said to have written, read and reported is what the steps of its run did |
| `ProcessLaws.RunIntact` | src/scripting/ProcessHost.cpp:337-389 | only a withdrawal, or the stop of a program read on demand, costs the owner output |
| `ProcessLaws.DeliveredInRun` | src/scripting/ProcessHost.cpp:337-575 | in every run with a stop of a program read on demand, and in every run of any other program, a delivery leaves nothing pending, releases the program exactly if it ended, and tells its owner last unless it was withdrawn |
| `ProcessLaws.OutcomeIsReported` | src/scripting/ProcessHost.cpp:549-567 | in every run the end that is told, in a notice or a reply, has the code that was reported, and failed exactly for a crash or a code other than 0 |
| `ProcessLaws.RunSilent` | src/scripting/ProcessHost.cpp:360-389 | whatever happens behind a withdrawal, the owner hears nothing of the program any more |
| `ProcessLaws.BytesReceived` | src/scripting/ProcessHost.cpp:136-575 | in every run without a withdrawal and without a stop of a program read on demand the bytes received followed by those in the mailbox are all that its steps wrote |
| `ProcessLaws.TextReceived` | src/scripting/ProcessHost.cpp:509-547 | in every run of a program read as text without a withdrawal a delivery behind its end has told the owner the Unicode substitution of all its steps wrote, on each stream |
| `ProcessLaws.RunGoesOn` | src/scripting/ProcessHost.cpp:119-389 | every run can be stopped, withdrawn and delivered to, and goes on with whatever its program may do next |
| `ProcessHost.SumsOfUpdate` | src/scripting/ProcessHost.h:61-69 | changing one entry changes the sums over all entries by just what that entry counts for |
| `ProcessHost.DrainStep` | src/scripting/ProcessHost.cpp:471-494 | one round of the inner loop, whole chunk or part of one, is one step of the drain |
| `ProcessHost.OutputKeeps` | src/scripting/ProcessHost.cpp:140-165 | after the wait condition held, appending keeps both global counters equal to the sums and within 4 MiB and 4096 chunks |
| `ProcessHost.DeliverKeeps` | src/scripting/ProcessHost.cpp:467-501 | delivering one program keeps the counters equal to the sums, and the unsigned subtractions never go below zero |
| `ProcessHost.ProducerGoesOn` | src/scripting/ProcessHost.cpp:140-147 | once everything was delivered a waiting producer goes on exactly if its piece fits beside what the pulled programs nobody reads hold, in bytes and in chunks, and into its own share if it is one of them |
| `ProcessHost.ThreeNeverBlock` | src/scripting/ProcessHost.cpp:140-147 | at most three pulled programs that nobody reads never make a program that is not pulled wait with a piece of up to 1 MiB |
| `ProcessHost.FourBlockEverybody` | src/scripting/ProcessHost.cpp:140-147 | four that hold their whole share leave room for no byte of any program, and deliveries do not change that |
| `ProcessHost.FourCanBlock` | src/scripting/ProcessHost.cpp:119-167 | and four do come to that: each starts and finds room for its whole share |
| `ProcessHost.ProcessHost.Waits` | src/scripting/ProcessHost.cpp:140-147 | the wait condition computed with unsigned subtractions, none of which goes below zero, is the condition on what would be held |
| `ProcessHost.ProcessHost.Output` | src/scripting/ProcessHost.cpp:136-167 | one round of the output callback adds just the next bytes to what the program wrote when there is room and wakes the interface thread, waits unchanged when there is none, and returns at once when closed |
| `ProcessHost.ProcessHost.Exited` | src/scripting/ProcessHost.cpp:168-177 | the end that was reported waits behind the output and the interface thread is woken, or nothing happens when closed |
| `ProcessHost.ProcessHost.Post` | src/scripting/ProcessHost.cpp:123-133 | one delivery is queued for any number of wakes until it comes |
| `ProcessHost.ProcessHost.TakeFrom` | src/scripting/ProcessHost.cpp:469-494 | the loop takes what the drain takes and lowers both counters by what the entry lost |
| `ProcessHost.ProcessHost.Deliver` | src/scripting/ProcessHost.cpp:452-575 | every program takes one delivery whatever the others do, and afterwards, with no wake posted, only pulled entries without a reader remain |
| `ProcessDelivery.DeliverInTwo` | src/scripting/ProcessHost.cpp:452-575 | taking under the lock and handing over behind it make the delivery of a program |
| `ProcessDelivery.HandsFirst` | src/scripting/ProcessHost.cpp:507-575 | whatever producers append or end while a delivery hands over, it might as well have handed over everything before |
| `ProcessDelivery.DeliverIsOneStep` | src/scripting/ProcessHost.cpp:452-575 | a delivery with producers going on anywhere behind its lock, between the hand-overs of any two programs, leads where the delivery as one step and then those producers lead, counters and wakes included |
| `ProcessHost.ProcessHost.Delivery` | src/scripting/ProcessHost.cpp:128-132 | a queued delivery comes exactly as a direct one does, and the wake invariant holds again |
| `ProcessHost.ProcessHost.Start` | src/scripting/ProcessHost.cpp:119-205 | a program gets an identity of its own, is read as asked, waits for nothing, and touches no other program |
| `ProcessHost.ProcessHost.Read` | src/scripting/ProcessHost.cpp:286-316 | a read is accepted exactly from the owner of a pulled program without a reader that is not withdrawn, and is answered from what the mailbox holds or waits |
| `ProcessHost.ProcessHost.Stop` | src/scripting/ProcessHost.cpp:337-358 | only the owner stops a program; one read on demand has then nothing pending and all its bytes taken, is released and its owner told if its end was there, and ends that way with its exit if not; any other is left as a delivery leaves it |
| `ProcessHost.ProcessHost.Forget` | src/scripting/ProcessHost.cpp:360-389 | every program of the plugin and no other is withdrawn: nothing of it stays pending, its waiting read is withdrawn, and nothing else is told |
| `ProcessHost.ProcessHost.Close` | src/scripting/ProcessHost.cpp:26-42 | closing drops what waits and nothing else |
| `DatabaseBootstrap.UnderwaySafe` | src/persistence/DatabaseBootstrap.cpp:81-127 | at every instant of an import the previous main file stands at the database or the backup name, or the imported one has validated; the three main files never stand together; no main file, the backup included, lies beside the log of another database |
| `DatabaseBootstrap.ImportOfFiles` | src/persistence/DatabaseBootstrap.cpp:83-127 | file by file, from which directories an import begins and with which it is finished, and which database deserves to win |
| `DatabaseBootstrap.SettingAside` | src/persistence/DatabaseBootstrap.cpp:112-116 | setting the database aside, stopped after any rename or remove, leaves the import in a state it resumes from, and leaves the log behind exactly when the stop comes between the main file and the log |
| `DatabaseBootstrap.Placing` | src/persistence/DatabaseBootstrap.cpp:118-120 | putting the staged file in place, stopped anywhere, leaves such a state too and never touches the log of the previous database |
| `DatabaseBootstrap.Rejecting` | src/persistence/DatabaseBootstrap.cpp:150-153 | so does removing a rejected database |
| `DatabaseBootstrap.Restoring` | src/persistence/DatabaseBootstrap.cpp:155-159 | restoring the backup, stopped anywhere, leaves such a state too, and leaves the log behind exactly when the stop comes between the main file and the log |
| `DatabaseBootstrap.Closing` | src/persistence/DatabaseBootstrap.cpp:92-110 | removing the backup of an accepted import finishes it with the first remove; so does removing a staged file that is not whole, which leaves an import that had begun to be put back, with the log where it is |
| `DatabaseBootstrap.LogIsLost` | src/persistence/DatabaseBootstrap.cpp:163-191 | one stop between the renames of the previous main file and of its log, on the way to the backup or back, ends the rejected import with the previous main file and without its log, which an import that is not stopped keeps |
| `DatabaseBootstrap.NextArrives` | src/persistence/DatabaseBootstrap.cpp:83-101 | after a finished import the next one begins like the first exactly when no log of another database lies at the staged name |
| `DatabaseBootstrap.StagedLogMayRemain` | src/persistence/DatabaseBootstrap.cpp:170-188 | stopping between the rename of a main file and that of its log leaves such a log, so that condition is needed |
| `DatabaseBootstrap.Directory.RemoveDatabase` | src/persistence/DatabaseBootstrap.cpp:193-205 | stopped anywhere, what is left is the directory after the first so many of the three removes |
| `DatabaseBootstrap.Directory.MoveDatabase` | src/persistence/DatabaseBootstrap.cpp:163-191 | stopped anywhere, what is left is the directory after the first so many of the removes and renames, the main file before its logs |
| `DatabaseBootstrap.Directory.Open` | src/persistence/DatabaseBootstrap.cpp:67-79 | a main file is opened only beside its own logs, and opening changes nothing but those |
| `DatabaseBootstrap.Directory.OpenValidated` | src/persistence/DatabaseBootstrap.cpp:67-79 | the answer is yes only for a database that validates, which is then recorded, and no for any that does not or that the machine fails to open; the log of the previous one stays |
| `DatabaseBootstrap.Directory.Whole` | src/persistence/DatabaseBootstrap.cpp:130-147 | the answer is yes only for a whole file, and no for any that is not or that the machine fails to open; the import stays where it stands |
| `DatabaseBootstrap.Directory.Restore` | src/persistence/DatabaseBootstrap.cpp:150-160 | the notice is answered only once the previous database is back, and a stop in between never applies the rejected one again |
| `DatabaseBootstrap.Directory.DropStaged` | src/persistence/DatabaseBootstrap.cpp:100-110 | a staged file that is not whole, or not opened, is dropped, and if the previous database had been set aside already it is put back before the notice is answered |
| `DatabaseBootstrap.Directory.ApplyStagedImport` | src/persistence/DatabaseBootstrap.cpp:83-127 | without a staged and a backup main file nothing is changed and success is answered; from wherever an import stands, whatever openings fail, a start either is stopped with the import still underway or finishes it, with the imported main file exactly if it answers success, which it does only after that validated; with the main file of an uninterrupted import unless a good file could not be opened; and with the previous main file beside its log exactly when no move of it stopped between the two |
| `DatabaseBootstrap.Directory.Start` | src/persistence/DatabaseBootstrap.cpp:23-43 | a start that is not stopped opens the imported main file if it is whole and validates and else the previous one (one of the two in any case, if a good file could not be opened), never beside the log of another database, and the previous one beside the log it arrived with exactly when no move of it stopped between the two; it raises a notice exactly if an import was underway and did not end with the imported database |
| `DatabaseBootstrap.Directory.Starts` | src/persistence/DatabaseBootstrap.cpp:83-127 | over any number of starts, each stopped anywhere and with any openings failing, the previous main file is never lost unless the imported one validated; the first start that finishes leaves no staged and no backup main file and, unless a good file could not be opened, the main file of an uninterrupted import; when it leaves the previous one, the log it arrived with stands beside it if and only if no move of it stopped between its main file and the log |
| `PreferenceStore.DiscardedIsDeleted` | src/persistence/PreferenceStore.cpp:44-52 | memory drops exactly the owners that the DELETE statement takes from the table |
| `PreferenceStore.WrittenKeeps` | src/persistence/PreferenceStore.cpp:75-106 | a write is what readers see at once and keeps every owner consistent with what is in flight |
| `PreferenceStore.WorkedKeeps` | src/persistence/DatabaseExecutor.cpp:53-75 | a turn of the worker, successful or not, keeps every owner consistent: what is committed once its completions have come is what the table holds |
| `PreferenceStore.SwappedKeeps` | src/execution/MainThreadQueue.cpp:28-34 | swapping the completions out of the queue keeps their order |
| `PreferenceStore.FinishedKeeps` | src/persistence/PreferenceStore.cpp:88-102 | a completion settles each owner as the table was settled before, rolling back only the latest write |
| `PreferenceStore.ReadersSeeLastWrite` | src/persistence/PreferenceStore.cpp:54-57 | while a write of an owner is in flight readers see the last document written |
| `PreferenceStore.QuietAgrees` | src/persistence/PreferenceStore.cpp:74-106 | once nothing of an owner is in flight, what readers see, what is committed and what the table holds agree |
| `PreferenceStore.RunPromises` | src/persistence/PreferenceStore.cpp:75-112 | both hold for every owner after every run of writes, erases, worker turns, swaps and completions in which no write is queued behind an erase that takes its document and that is undecided or has succeeded without being completed |
| `PreferenceStore.OneWrite` | src/persistence/PreferenceStore.cpp:75-106 | one write from the call to its completion is such a run and ends with readers and table at its document |
| `PreferenceStore.WriteAgreesIff` | src/persistence/PreferenceStore.cpp:75-106 | in every state of a careful run, whatever is in flight: after a write, every way in which the works in flight can end leaves readers, memory and table of the owner in agreement if and only if no erase that takes the document is undecided or has succeeded without being completed, or the document is the empty one |
| `PreferenceStore.WriteIsLost` | src/persistence/PreferenceStore.cpp:88-102 | behind such an erase any other document is stored and never read when everything succeeds |
| `PreferenceStore.EmptyBehindEraseHarms` | src/persistence/PreferenceStore.cpp:88-102 | an empty document behind such an erase agrees in the end by itself, but its late failure rolls back the next document too, which is why runs keep away from it |
| `PreferenceStore.WriteBehindErase` | src/persistence/PreferenceStore.cpp:93-96 | a concrete run in which a document written behind an erase is stored and left invisible to readers |
| `PreferenceStore.LoadedValid` | src/persistence/PreferenceStore.cpp:15-37 | what is loaded at the start agrees with the table, damaged rows counting as none |
| `PreferenceStore.DatabaseExecutor.Turn` | src/persistence/DatabaseExecutor.h:29-36 | the worker takes the first work, the table changes only if it succeeds, and its completion is posted |
| `PreferenceStore.PreferenceStore.Write` | src/persistence/PreferenceStore.cpp:75-106 | a document that is not an object changes nothing; any other one, behind an erase too, is read from now on and queued under a higher revision |
| `PreferenceStore.PreferenceStore.Discard` | src/persistence/PreferenceStore.cpp:108-112 | exactly the entries that belong to the plugin go |
| `PreferenceStore.PreferenceStore.Finish` | src/persistence/PreferenceStore.cpp:88-102 | a completion commits its document, rolls the latest write back, or discards an erased plugin |
| `PreferenceStore.PreferenceStore.Drain` | src/execution/MainThreadQueue.cpp:28-39 | a drain settles every completion posted before it, in order, and touches neither the table nor the work queue |
| `PreferenceStore.PreferenceStore.WorkerTurn` | src/persistence/DatabaseExecutor.cpp:53-75 | a turn of the worker, whatever its outcome, keeps the store consistent and changes nothing a reader sees |
| `PreferenceStore.PreferenceStore.Read` | src/persistence/PreferenceStore.cpp:54-57 | the current document, or an empty object for an owner without one |
| `MiniaudioOutput.ReportedOnce` | src/audio/MiniaudioOutput.cpp:96-121 | an update reports each sound at most once and none that was reported before or for which a stop has returned, and a sound that did not fail only if it is no loop and played to its end |
| `MiniaudioOutput.ReportedExactly` | src/audio/MiniaudioOutput.cpp:100-120 | an update reports first exactly the sounds that failed and then exactly those that play or were opened, are no loops and are at their end, none twice |
| `MiniaudioOutput.ReportedIsGone` | src/audio/MiniaudioOutput.cpp:110-118 | what is reported is in no place afterwards, its object closed once if there was one, and every other sound that played or was opened plays |
| `MiniaudioOutput.OneSound` | src/audio/MiniaudioOutput.cpp:54-121 | a sound that is played, opened and at its end is reported once and closed once |
| `MiniaudioOutput.StoppedIsGone` | src/audio/MiniaudioOutput.cpp:75-94 | after a stop the sound is in no place, unless the worker is opening it, and then it is marked to be thrown away |
| `MiniaudioOutput.EveryObjectClosedOnce` | src/audio/MiniaudioOutput.cpp:18-45 | once the destructor has run every sound object ever made is closed, and closed once |
| `MiniaudioOutput.PlayedKeeps` | src/audio/MiniaudioOutput.cpp:54-72 | a new identity is in one place only |
| `MiniaudioOutput.StoppedKeeps` | src/audio/MiniaudioOutput.cpp:75-94 | a stop keeps every sound in at most one place, the mark equal to what is being opened or to nothing, and every object closed at most once |
| `MiniaudioOutput.TakingKeeps` | src/audio/MiniaudioOutput.cpp:137-150 | so does the worker taking a request |
| `MiniaudioOutput.FinishingKeeps` | src/audio/MiniaudioOutput.cpp:152-174 | so does the worker coming back with or without an object, which a marked sound never keeps |
| `MiniaudioOutput.UpdatedKeeps` | src/audio/MiniaudioOutput.cpp:96-121 | so does an update |
| `MiniaudioOutput.RunKeeps` | src/audio/MiniaudioOutput.cpp:54-176 | all of this holds, and no issued sound is lost, after every interleaving of plays, stops, updates and worker steps; that stops and updates may stand for one step is the next two rows |
| `MiniaudioOutput.StopIsOneStep` | src/audio/MiniaudioOutput.cpp:75-94 | the section of a stop under the lock, with steps of the worker anywhere behind it, between its release and its return, leads where the whole stop followed by those steps leads |
| `MiniaudioOutput.UpdateIsOneStep` | src/audio/MiniaudioOutput.cpp:96-121 | so does the section of an update under the lock, with steps of the worker between any two of the releases behind it |
| `MiniaudioOutput.OwnFirst` | src/audio/MiniaudioOutput.cpp:75-176 | whatever a call does without the lock could as well have been done before the steps of the worker it is interleaved with |
| `MiniaudioOutput.MiniaudioOutput.Play` | src/audio/MiniaudioOutput.cpp:54-72 | the answered identity is new and waits |
| `MiniaudioOutput.MiniaudioOutput.Withdraw` | src/audio/MiniaudioOutput.cpp:76-91 | the section under the lock takes the sound out of what waits, failed and was opened, marks it while it is being opened, and closes its object |
| `MiniaudioOutput.MiniaudioOutput.Stop` | src/audio/MiniaudioOutput.cpp:75-94 | the sound is in no list any more, marked if the worker is opening it, and every other sound is where it was |
| `MiniaudioOutput.MiniaudioOutput.Update` | src/audio/MiniaudioOutput.cpp:96-121 | every failed sound is answered as a failure, every sound that plays or was opened, is no loop and is at its end as an end, no other sound and none twice; each is in no place afterwards with its object closed, and all others play on |
| `MiniaudioOutput.MiniaudioOutput.Release` | src/audio/MiniaudioOutput.cpp:218-227 | an object is closed exactly if the sound plays |
| `MiniaudioOutput.MiniaudioOutput.TakeRequest` | src/audio/MiniaudioOutput.cpp:137-150 | the oldest request is taken out of the queue and named as being opened, and nothing else changes |
| `MiniaudioOutput.MiniaudioOutput.FinishRequest` | src/audio/MiniaudioOutput.cpp:152-170 | a marked sound is thrown away with its object closed, and another one is handed over at the end of the opened or of the failed |
| `MiniaudioOutput.MiniaudioOutput.Destroy` | src/audio/MiniaudioOutput.cpp:30-39 | both loops close what is still open, so that every object made is closed once |
| `FileStaging.WaitsOnlyForTaken` | src/scripting/FileStaging.cpp:155-159 | a release that waits only waits for a creation another thread is running, never for one still queued |
| `FileStaging.NeverStuck` | src/execution/WorkerPool.cpp:53-73 | while a task is queued or running some thread can go on, for a pool of any positive size |
| `FileStaging.TurnsEnd` | src/execution/WorkerPool.cpp:53-73 | every turn of a thread lowers what the pool has still to do, so a pool nobody posts to drains |
| `FileStaging.NothingLeaks` | src/scripting/FileStaging.cpp:34-44 | once the host is gone and the pool drained, every folder still on the disk is one whose failed removal was logged |
| `FileStaging.OrderedPosted` | src/execution/WorkerPool.cpp:21-33 | posting keeps every creation before the release of its entry |
| `FileStaging.ReadiedKeeps` | src/scripting/FileStaging.cpp:100-124 | starting an entry keeps one creation pending and no release before it |
| `FileStaging.ClosingKeeps` | src/scripting/FileStaging.cpp:140-150 | closing keeps one release in flight for an entry |
| `FileStaging.DestroyedKeeps` | src/scripting/FileStaging.cpp:34-44 | the destructor adds just the releases that are not in flight already |
| `FileStaging.RanKeeps` | src/scripting/FileStaging.cpp:108-123 | a creation or a release that runs, succeeding or failing, keeps every folder owned by an entry that will release it or was logged |
| `FileStaging.CompletedKeeps` | src/scripting/FileStaging.cpp:171-182 | a failed release may be closed again and a successful one leaves the host |
| `FileStaging.RunPromises` | src/scripting/FileStaging.cpp:34-186 | both promises hold in every run over a pool of any positive size |
| `FileStaging.RunBounded` | src/scripting/FileStaging.cpp:70-72 | in no run are more than 32 entries held |
| `FileStaging.FolderIsMade` | src/scripting/FileStaging.cpp:70-126 | opening and starting an entry, and a thread that takes and runs its creation, make its folder |
| `FileStaging.FolderIsRemoved` | src/scripting/FileStaging.cpp:128-183 | closing it, and a thread that takes and runs the release, remove the folder, and its completion the entry |
| `FileStaging.FileStaging.Open` | src/scripting/FileStaging.cpp:70-80 | an entry gets a new identity unless 32 are held |
| `FileStaging.FileStaging.Ready` | src/scripting/FileStaging.cpp:98-126 | the creation is posted exactly once, for a held entry that is not closing |
| `FileStaging.FileStaging.Close` | src/scripting/FileStaging.cpp:140-150 | the release is posted for a held entry that is not closing already |
| `FileStaging.FileStaging.Destroy` | src/scripting/FileStaging.cpp:34-44 | each held entry that is not closing gets exactly one release that answers nobody, and no other task is posted |
| `FileStaging.FileStaging.Create` | src/scripting/FileStaging.cpp:108-117 | the creation records whether there is a folder and lets its release go on |
| `FileStaging.FileStaging.Release` | src/scripting/FileStaging.cpp:161-183 | a created folder is removed or its failed removal logged, and the answer says which |
| `FileStaging.FileStaging.Complete` | src/scripting/FileStaging.cpp:172-181 | the completion of a release on the interface thread |
| `LogService.RunKeeps` | src/logging/LogService.cpp:16-91 | after every interleaving of the sections under both locks no wake is lost and what left with what waits is what was written, in order |
| `LogService.RunPromises` | src/logging/LogService.cpp:16-91 | while entries wait for a consumer the flag is set and a call was made or is owed, and if consumers are cleared before others are set it is the consumer that is set who was called |
| `LogService.OrderlyIsHeard` | src/logging/LogService.cpp:43-61 | when no consumer replaces another without a clear, the one set is the one that heard |
| `LogService.ReplacementHears` | src/logging/LogService.cpp:49-58 | right after its setting, a consumer that replaces another is owed a call exactly if waiting entries were not announced yet or a call was owed |
| `LogService.ReplacementIsCalled` | src/logging/LogService.cpp:43-61 | in every run in which a consumer replaces another while entries wait, up to the next take, clear or replacement, the calls made are calls of that consumer, as many as were owed plus one if the entries were not announced; once its setting is done and nothing is owed any more it was never called if and only if the entries were announced and nothing was owed |
| `LogService.ClearedIsSilent` | src/logging/LogService.cpp:64-73 | once a delivery is cleared nobody is called until the next one is set |
| `LogService.TakenConserves` | src/logging/LogService.cpp:75-82 | a take answers all that waits, after what earlier takes answered |
| `LogService.DeliveredKeepsAll` | src/logging/LogService.cpp:26-37 | from a delivery until it is cleared every entry written is answered by a take or waits, in the order it was written |
| `LogService.BoundBeforeDelivery` | src/logging/LogService.cpp:26-30 | until the first delivery at most 2000 entries wait |
| `LogService.BacklogIsNewest` | src/logging/LogService.cpp:24-30 | without a delivery and a take the newest 2000 of what waited and what a run writes wait, so all of them while they are fewer |
| `LogService.BacklogFromStart` | src/logging/LogService.cpp:24-30 | from the start on, until somebody is delivered to, the last 2000 entries written wait |
| `LogService.OneDelivery` | src/logging/LogService.cpp:16-91 | an entry that waited is announced once to the consumer that comes, taken, and nothing is left when the delivery is cleared |
| `LogService.BoundedIffClearedInTime` | src/logging/LogService.cpp:26-30 | in every run the 2000 entries bound what waits at each moment without a delivery if and only if no delivery is cleared while more are waiting |
| `LogService.PendingIsNewest` | src/logging/LogService.cpp:26-30 | what waits are the newest entries, so only the oldest are ever dropped |
| `LogService.LogService.Append` | src/logging/LogService.cpp:24-37 | the section of write adds the entry, drops the oldest only of a full queue nobody is delivered, and owes a call exactly if somebody is delivered to and was not told |
| `LogService.LogService.Notify` | src/logging/LogService.cpp:85-91 | the consumer that is set is called, and no other |
| `LogService.LogService.Write` | src/logging/LogService.cpp:16-40 | a write calls the consumer exactly if it is delivered to and was not told already |
| `LogService.LogService.Replace` | src/logging/LogService.cpp:44-47 | the first section of setting a consumer replaces the one that was set, and touches nothing else |
| `LogService.LogService.Deliver` | src/logging/LogService.cpp:49-60 | entries that waited for a consumer are announced once |
| `LogService.LogService.Silence` | src/logging/LogService.cpp:65-69 | the first section of clearing stops the delivery |
| `LogService.LogService.Take` | src/logging/LogService.cpp:75-82 | the answer is all that waited |
| `TextSearch.Folded` | src/files/TextSearch.cpp:93-103 | in place, every uppercase ASCII letter and no other byte is lowered |
| `TextSearch.FoldLowersLetters` | src/files/TextSearch.cpp:93-103 | the letters from A to Z become those from a to z, and every other byte stays |
| `TextSearch.TrimmedIsSlice` | src/files/TextSearch.cpp:105-113 | the trimmed line is a slice of the line with nothing but spaces, tabs and carriage returns outside |
| `TextSearch.TrimmedEnds` | src/files/TextSearch.cpp:105-113 | and with none of them at its ends |
| `TextSearch.OccursInLine` | src/files/TextSearch.cpp:50-56 | a place inside a line of the folded file is a place of that folded line, and the other way round |
| `TextSearch.OccurrenceInOneLine` | src/files/TextSearch.cpp:18-21 | a text without line breaks stands inside one line |
| `TextSearch.LineWith` | src/files/TextSearch.cpp:69-75 | the line of the next place is the next line answered |
| `TextSearch.NoMoreLines` | src/files/TextSearch.cpp:56-56 | without a further place no later line holds the text |
| `TextSearch.CountLines` | src/files/TextSearch.cpp:57-62 | counting up to a place passes only lines without the text and keeps the line number true |
| `TextSearch.SearchContent` | src/files/TextSearch.cpp:50-78 | searching the file as a whole answers the same matches as searching it line by line, up to the bound, and goes on exactly if all fitted |
| `TextSearch.MatchesAreLines` | src/files/TextSearch.cpp:56-76 | the matches are exactly the lines that contain the text, each once, in order, under its own number |
| `TextSearch.LinesJoin` | src/files/TextSearch.cpp:57-75 | the lines are the file cut at its line breaks |
| `TextSearch.ReportedIsText` | src/files/TextSearch.cpp:70-70 | what is answered of a line is UTF-8, a prefix of the trimmed line, of at most 400 characters, and the whole trimmed line when it is not longer |
| `TextSearch.AnswersAreText` | src/files/TextSearch.cpp:46-70 | every text answered of a file is valid UTF-8 of at most 400 characters |
| `TextSearch.NoLineHoldsBreak` | src/files/TextSearch.cpp:18-21 | a text with a line feed is held by no line, so refusing it loses nothing |
| `TextSearch.Search.Visit` | src/files/TextSearch.cpp:24-79 | the visitor adds the matches of a file that holds text, up to the bound, and leaves the search complete exactly if the file was reached and all fitted |
| `TextSearch.SearchFiles` | src/files/TextSearch.cpp:14-91 | for a text without line breaks, the answer over the files of a walk is the first matching lines up to the bound, complete exactly if those are all and every file was reached; a text with a carriage return or a line feed is answered as found nowhere, completely |
| `TextSearch.AllMatchesAreLines` | src/files/TextSearch.cpp:24-79 | found are exactly the matching lines of the files that were read, are not empty and not beyond the bound, hold no NUL byte and are UTF-8 |
| `TextSearch.AllReachedIff` | src/files/TextSearch.cpp:26-44 | all files were looked at exactly if each was read, is empty or is beyond the bound |
| `TextSearch.AnswerIsLineByLine` | src/files/TextSearch.cpp:18-21 | for every text the matches answered are those of a search line by line if and only if the text holds no carriage return, no match is asked for, or no line of a searched file holds it |
| `TextSearch.ReturnIsLost` | src/files/TextSearch.cpp:18-21 | the text `o` with a carriage return stands in a line of a file with CRLF line ends and is answered as standing nowhere |
| `TextSearch.SearchTree` | src/files/TextSearch.cpp:14-91 | walk and visitor together, for a text without line breaks and a search that is not stopped: complete if and only if no error was met, the entries fit, every file was reached and all matches fit, and the matches are the first ones of the files among the first 100000 entries in preorder |
| `TreeWalk.Looked` | src/files/TreeWalk.cpp:37-78 | one entry looked at hands out, opens and counts just what the recursive preorder says of it |
| `TreeWalk.PreorderIsListing` | src/files/TreeWalk.cpp:26-80 | what the entries hand out one by one in preorder are the files of the listing, and as many entries are inspected |
| `TreeWalk.FirstFilesGrow` | src/files/TreeWalk.cpp:33-36 | more entries hand out the same files and maybe more, and all of them the whole listing |
| `TreeWalk.Visit` | src/files/TreeWalk.cpp:12-82 | the stack of iterators ends on every finite tree; unless it is stopped it hands out exactly the files among the first so many entries of the recursive preorder outside skipped folders, or ends with a file the visitor refuses, and it answers complete exactly if no error is met, the entries fit and the visitor wants every file |
| `TreeWalk.Walk` | src/files/TreeWalk.cpp:84-108 | the collected paths are the first files, up to the bound, of those among the first 100000 entries, complete without errors or a stop exactly if entries and files both fit |
| `Base64.EncodedInjective` | src/text/Base64Helper.cpp:7-24 | no two byte strings share a text |
| `Base64.EncodedShape` | src/text/Base64Helper.cpp:12-21 | an encoded text is whole groups of four letters closed by its padding |
| `Base64.LetterOfAlphabet` | src/text/Base64Helper.cpp:8-8 | each digit is written as the letter at its place in the alphabet |
| `Base64.FeedSextets` | src/text/Base64Helper.cpp:43-57 | the digits of an encoding unpack to its bytes and leave no bit over |
| `Base64.SextetsOfFed` | src/text/Base64Helper.cpp:43-61 | digits that leave no bit over are those of the bytes they unpack to, so trailing bits are canonical |
| `Base64.Accumulate` | src/text/Base64Helper.cpp:50-56 | the accumulator that wraps at 32 bits answers the same byte as one that never does |
| `Base64.EncodeQuantum` | src/text/Base64Helper.cpp:13-20 | one round writes the four characters of its one to three bytes |
| `Base64.Encode` | src/text/Base64Helper.cpp:7-24 | the loop writes the RFC 4648 encoding |
| `Base64.Decode` | src/text/Base64Helper.cpp:27-64 | an answer `b` exactly for the text that encodes `b`, and none for a text that encodes nothing |
| `Timestamp.DateOfDay` | src/time/TimestampHelper.cpp:37-38 | every day number is that of the valid date it is turned into |
| `Timestamp.DayOfDate` | src/time/TimestampHelper.cpp:64-70 | every valid date is turned into the day number it comes from |
| `Timestamp.DaysFollow` | src/time/TimestampHelper.cpp:36-39 | the numbering is the Gregorian calendar: day 0 is 1 January 1970 and every next day is the day after, leap years included |
| `Timestamp.InstantOfMoment` | src/time/TimestampHelper.cpp:37-39 | date and time of day make up the instant again, also before 1970 |
| `Timestamp.MomentOfInstant` | src/time/TimestampHelper.cpp:70-70 | the instant of a valid date and time has that date and time |
| `Timestamp.PrintedReads` | src/time/TimestampHelper.cpp:41-41 | a padded number reads back, and takes just its width as long as it fits |
| `Timestamp.ReadPrints` | src/time/TimestampHelper.cpp:10-21 | a text of digits is what printing its number to its width gives |
| `Timestamp.ReadNumber` | src/time/TimestampHelper.cpp:10-21 | a field is read exactly if it is all digits |
| `Timestamp.PrintedParses` | src/time/TimestampHelper.cpp:36-71 | parsing what was printed gives back the same millisecond for every instant of the years 0000 to 9999 |
| `Timestamp.ParsedPrints` | src/time/TimestampHelper.cpp:36-71 | printing what was parsed gives back every accepted text |
| `Timestamp.RangeOfYears` | src/time/TimestampHelper.cpp:37-38 | the years of four digits are the milliseconds from -62167219200000 to 253402300799999 |
| `Timestamp.AcceptedAgain` | src/time/TimestampHelper.cpp:36-71 | a printed text is accepted again if and only if its instant lies between those two milliseconds |
| `Timestamp.ParseStoredTimestamp` | src/time/TimestampHelper.cpp:45-71 | the answer is an instant exactly if the instant, of a year of four digits, is printed to the text |
| `PluginDatabase.Database.Rollback` | src/persistence/PluginDatabase.cpp:16-23 | only an open transaction is rolled back, so after one SQLite ended by itself the caller still learns what failed first |
| `PluginDatabase.Transaction` | src/persistence/PluginDatabase.cpp:72-96 | all statements apply together or the data is what it was, on every failure path; without failures of the machine it succeeds exactly if every statement can be executed and no foreign key is left broken for the commit |
| `PluginDatabase.StepAdvances` | src/persistence/PluginDatabase.cpp:114-142 | the migration after the recorded version leads from what the first migrations produce to what one more produces, or cannot be made, or the rows that are stored refuse it |
| `PluginDatabase.ExecutedIsApplied` | src/persistence/PluginDatabase.cpp:43-46 | the statements of a migration change the objects of the plugin and leave the objects, versions and documents of everybody else alone |
| `PluginDatabase.StatementChanges` | src/persistence/PluginDatabase.cpp:43-46 | a statement of a migration is made exactly if SQLite can make it of the plugin's objects, leaves only names behind the prefix and no row refuses it, and then the objects under the prefix are what it left and everything else is what it was |
| `PluginDatabase.MigrateOnce` | src/persistence/PluginDatabase.cpp:115-141 | one migration with its foreign-key check and its version is durable as a whole or not at all, also when the product ends while it commits, before or after that is durable |
| `PluginDatabase.CompletedIffMigrated` | src/persistence/PluginDatabase.cpp:114-142 | the migrations behind the recorded version can be completed if and only if all of them can be made and no stored row refuses one of them on the way |
| `PluginDatabase.LeftRowsAllow` | src/persistence/PluginDatabase.cpp:114-142 | statements that leave the references between rows as they are meet the second condition for any migrations |
| `PluginDatabase.Migrate` | src/persistence/PluginDatabase.cpp:99-149 | after any return or crash, before or after a commit, version and objects are together what the first migrations produce and what is left to do leads to the same data; a newer schema is refused untouched; success means the declared version and the names and normalized definitions the migrations create, and comes without failures of the machine exactly if the migrations can be completed on the stored data, can be made in a database of their own, and leave just those names and definitions; nothing of anybody else changes |
| `PluginDatabase.SameElsewhereMeans` | src/persistence/PluginDatabase.cpp:99-149 | what a migration leaves alone: every object outside the prefix, every other version and every preference document |
| `PluginDatabase.FreshIsConsistent` | src/persistence/PluginDatabase.cpp:99-112 | a plugin that keeps nothing yet is consistent, and one with a version beyond its migrations never |
| `PluginDatabase.MigratedIsScratch` | src/persistence/PluginDatabase.cpp:168-182 | what migrating step by step produces is what the statements of all migrations in a row make of no objects |
| `PluginDatabase.MigratedIffScratch` | src/persistence/PluginDatabase.cpp:114-142 | the migrations can be made exactly if all their statements can, with the foreign keys within the plugin behind each migration |
| `PluginDatabase.BuiltIsScratch` | src/persistence/PluginDatabase.cpp:175-181 | the database in memory, where each statement is a transaction of its own, holds those objects too |
| `PluginDatabase.ConsistentAgrees` | src/persistence/PluginDatabase.cpp:169-206 | a plugin whose version and objects belong together verifies exactly if its migrations can be made in a database of their own |
| `PluginDatabase.Verify` | src/persistence/PluginDatabase.cpp:169-206 | verification succeeds only if, and without failures of the machine exactly if, the migrations can be made in a database of their own, the same names are stored and created under the prefix, and each stored definition, normalized, is the created one, normalized |
| `PluginDatabase.Restarts` | src/persistence/PluginDatabase.cpp:99-149 | a migration interrupted any number of times, inside a commit too, ends with the very data, rows included, one uninterrupted migration would end with, and reaches it in the first start without failures exactly if it can be reached |
| `PluginDatabase.DroppedIsErased` | src/persistence/PluginDatabase.cpp:228-251 | dropping the listed views and tables one after the other takes exactly those and what stands on them, and is refused exactly when the deletion of the rows of one of the tables is |
| `PluginDatabase.OnePluginIsListed` | src/persistence/PluginDatabase.cpp:228-228 | of a plugin with a table, an index and a view just the view and the table are listed |
| `PluginDatabase.OnePluginGoes` | src/persistence/PluginDatabase.cpp:228-252 | and with them its index goes, and a table of another plugin stays |
| `PluginDatabase.OnlyKeysWithout` | src/persistence/PluginDatabase.cpp:238-252 | without triggers, without keys that change rows otherwise and without a thousand levels of cascades, drops set off only their keys |
| `PluginDatabase.LeftIffLetGo` | src/persistence/PluginDatabase.cpp:238-252 | where a drop fires no trigger, runs into no thousand levels of cascades and has no key that changes a row otherwise, it is the keys, the rows and the order of the tables that decide, and they decide what is left of the references |
| `PluginDatabase.ErasedIsExact` | src/persistence/PluginDatabase.cpp:225-266 | erasing leaves no object, version or preference document of the plugin and takes none of anybody else; where no reference joins the plugin and others, no reference of others goes with the rows |
| `PluginDatabase.Erase` | src/persistence/PluginDatabase.cpp:226-266 | the plugin is erased as a whole or not at all, on every failure path and whatever triggers do; without failures of the machine, and where the drops set off nothing but their keys, it is erased if and only if no listed table is dropped while rows that stand at that moment refer to it with an action that forbids it, or while a cascade from it reaches a table with a key to one that does not stand any more, and no deferred key of a standing row is broken at the commit |
| `PluginDatabase.ForeignRowKeeps` | src/persistence/PluginDatabase.cpp:238-252 | an input for which it is refused: a listed table to which a standing row of a table outside the plugin refers with RESTRICT |
| `PluginDatabase.CascadesErase` | src/persistence/PluginDatabase.cpp:238-252 | where every reference cascades, clears, or is deferred and of a table that goes too, a plugin can be erased exactly if no cascade reaches a table with a key to one that was dropped before |
| `PluginDatabase.HistoryWithin` | src/persistence/PluginDatabase.cpp:49-69 | however plugins migrate, write and are erased, in any order, every foreign key their migrations made stays within the plugin that declares it |
| `PluginDatabase.OwnParentsOfTables` | src/persistence/PluginDatabase.cpp:49-69 | the question for foreign keys is passed exactly if every key that the definition of a table under the prefix declares names a parent under the prefix |
| `PluginDatabase.HistoryGoesOn` | src/persistence/PluginDatabase.cpp:99-266 | a history begins anywhere and goes on with every migration that succeeds, every write and every erasure |
| `PluginDatabase.OnlyOwnRowsRefuse` | src/persistence/PluginDatabase.cpp:48-69 | in every such database no row refers from one plugin to another, and whether a plugin can be erased is decided by its own tables and rows alone |
| `ForeignKeys.ClosureLeast` | src/persistence/Database.cpp:58-58 | a cascade takes all it leads to and nothing else, rows and tables alike |
| `ForeignKeys.CarriedExactly` | src/persistence/Database.cpp:58-58 | a cascade goes on from a table and from every table it reaches, and reaches no other |
| `ForeignKeys.DoomedLeast` | src/persistence/Database.cpp:58-58 | deleting rows takes no row that cascading keys do not lead to |
| `ForeignKeys.EmptiedStands` | src/persistence/PluginDatabase.cpp:238-252 | a dropped table leaves no reference from it or to its rows, not even one that an earlier drop had broken |
| `ForeignKeys.FreeFirst` | src/persistence/PluginDatabase.cpp:238-252 | a list of tables can be dropped exactly if the first is not refused and the rest can be dropped behind it |
| `ForeignKeys.ForbidsFromOutside` | src/persistence/Database.cpp:58-58 | a row of another table that refers with a forbidding key and that no cascade takes along holds the table |
| `ForeignKeys.GuardedWithin` | src/persistence/Database.cpp:58-58 | a row that refers to one of its own table holds the table exactly with RESTRICT and if it is deleted after the other one |
| `ForeignKeys.OrderDecides` | src/persistence/PluginDatabase.cpp:228-252 | with a key that is checked at once the same two tables can be dropped in one order and not in the other |
| `ForeignKeys.CascadesFree` | src/persistence/Database.cpp:58-58 | where every reference cascades or clears, tables can be dropped exactly in the orders that strand no cascade |
| `ForeignKeys.LooseFree` | src/persistence/PluginDatabase.cpp:228-264 | the same where others are deferred and of tables in the list, also when some of them are broken already |
| `ForeignKeys.DeferredFree` | src/persistence/PluginDatabase.cpp:228-264 | with deferred keys inside the listed tables every order can be dropped, parents before their children too |
| `ForeignKeys.DeferredFromOutside` | src/persistence/PluginDatabase.cpp:238-264 | a row of a table that stays and refers by a deferred key refuses the commit |
| `ForeignKeys.CascadeStrands` | src/persistence/PluginDatabase.cpp:228-252 | a table that cascades from itself and from another one cannot be dropped behind the other one, with no row in either, and can be before it |
| `ForeignKeys.PlainIsFree` | src/persistence/Database.cpp:58-58 | where nothing more is set off, dropping the tables one by one succeeds and leaves what keys and rows alone say |
| `ForeignKeys.PlainWithout` | src/persistence/Database.cpp:58-58 | a drop is decided by keys and rows where no key by which it changes rows, or looks for them first, is of a table with triggers or sets off another change, and cascades end within a thousand levels |
| `ForeignKeys.TriggerIsMore` | src/persistence/Database.cpp:58-58 | a trigger on a table that such a key is of sets off more |
| `ForeignKeys.BehindFurther` | src/persistence/Database.cpp:58-58 | a level behind a row is every row that refers to it through a cascading key |
| `ForeignKeys.OnlyOwnDecide` | src/persistence/PluginDatabase.cpp:48-69 | where neither keys nor references cross a prefix, the tables and rows with it decide alone whether its tables can be dropped |
| `ForeignKeys.OthersKept` | src/persistence/PluginDatabase.cpp:228-252 | where no reference leaves a plugin or enters it, dropping its tables keeps every reference of everybody else |
| `PluginDatabase.Quote` | src/persistence/PluginDatabase.cpp:242-244 | the loop doubles every quote of a name |
| `PluginDatabase.QuotedReadsBack` | src/persistence/PluginDatabase.cpp:239-248 | a quoted name is read back whole, so a DROP names exactly the listed object whatever its name holds |
| `PluginNamespace.PrefixesApart` | src/persistence/PluginDatabase.cpp:25-31 | no prefix of a valid identifier starts the prefix of another |
| `PluginNamespace.NamespacesDisjoint` | src/scripting/Identifier.cpp:7-16 | no name is owned under the prefixes of two valid identifiers |
| `PluginNamespace.SharedUnowned` | src/persistence/PluginAuthorizer.cpp:26-54 | no plugin owns a table of the core or one of SQLite |
| `PluginNamespace.StatementReadsOwn` | src/persistence/PluginAuthorizer.cpp:77-119 | outside a migration, after any callbacks, a granted read names a table of the plugin, a granted write such a table or a schema table, and no change of a schema is granted |
| `PluginNamespace.NobodyElse` | src/persistence/PluginAuthorizer.cpp:77-119 | not even a migration reads, writes, creates, alters or drops a table, view or trigger of another plugin, changes its indexes (the automatic ones of SQLite aside), reindexes or checks anything of it, touches a core table or renames a table |
| `PluginNamespace.QueryEndsSchemaReads` | src/persistence/PluginAuthorizer.cpp:56-63 | once the plugin itself has queried, no schema table is read for the rest of the statement |
| `PluginNamespace.OwnChangeCameFirst` | src/persistence/PluginAuthorizer.cpp:65-74 | SQLite's own tables are opened only by a granted change of the plugin's own object earlier in the same statement |
| `PluginNamespace.FlagsAreHistory` | src/persistence/PluginAuthorizer.cpp:56-86 | the flags remember just whether a migration changed an own object, whether a column change was asked for, and whether a select came before that |
| `PluginNamespace.GrantedIff` | src/persistence/PluginAuthorizer.cpp:77-119 | after any callbacks every action is granted exactly if the rule of its kind, told by the callbacks before in the same statement, lets it |
| `PluginNamespace.OwnTablesAreGranted` | src/persistence/PluginAuthorizer.cpp:91-96 | a plugin reads and writes its own tables in every statement, and outside a migration a read is granted exactly for them |
| `PluginNamespace.OwnChangesAreGranted` | src/persistence/PluginAuthorizer.cpp:97-114 | a migration creates, changes and drops whatever is named for the plugin, outside a migration nothing is, and the sequence table is created only behind such a change |
| `PluginNamespace.OwnedIffPrefixed` | src/persistence/PluginAuthorizer.cpp:26-35 | a name is owned exactly if something stands behind the prefix |
| `PluginNamespace.SchemaNames` | src/persistence/PluginAuthorizer.cpp:37-54 | the tables of the schema, the internal ones and the automatic indexes, by their names |
| `PluginNamespace.PluginAuthorizer.Authorize` | src/persistence/PluginAuthorizer.cpp:77-120 | the flags always are what the callbacks so far have made of them, and the answer is yes exactly if the rule of the action, told by those callbacks, lets it |

## Left out

- ProcessHost.ProcessHost.Deliver: emitting only queues an event, so no call comes back into the host while it delivers, and the order of events of different programs within one delivery is not stated.
- ProcessHost.ProducerGoesOn: which of several waiting producers the condition variable lets go on first is not modelled.
- ProcessHost.ProcessHost.Close: what producers and processes do after the host closed, and joining ended processes on a worker, are not modelled.
- ProcessHost.ProcessHost.Read: the checks of JSON arguments, of known plugins and of the bounds of a request are taken as made.
- DatabaseBootstrap.Directory.ApplyStagedImport: a failed rename or remove is like a crash, since both leave the directory as it is and end the start. A staged file arrives without companions and a previous database exists.
- DatabaseBootstrap.Directory.Starts: the index of the log that SQLite rebuilds is followed only as far as whose it is; what a log holds is not modelled, so a database with its log is one that keeps its last commits.
- DatabaseBootstrap.Directory.Start: setting an unreadable database aside is not modelled.
- PreferenceStore.RunPromises: shutting the executor down, after which queued works no longer complete, is not modelled.
- MiniaudioOutput.RunKeeps: which sounds have reached their end is asked once per update; the wake handler, volumes, paths and the wrap of 64-bit identities are not modelled; whether a file opens and whether a sound has reached its end are answers of the machine.
- FileStaging.RunPromises: the pool is closed only after the host is gone, as the product does it, so posting to a closed pool is not modelled; neither are folders that other programs create, nor the replies to creations.
- LogService.LogService.Write: stands for a thread that is not interrupted between its two locks; every interleaving is covered by the lemmas about runs.
- LogService.RunKeeps: setting and clearing a delivery are calls of one thread; writes, calls that are owed and takes come from any.
- TextSearch.SearchTree: what a file holds does not change while the tree is searched, so the visitor is a function of the files handed out so far.
- TreeWalk.Visit: the tree does not change while it is walked; a folder whose iterator cannot move on ends there, as the standard library defines it.
- Timestamp.ParseStoredTimestamp: years beyond what `std::chrono::year` can hold are counted on like all others, while the source leaves them unspecified; presentations in the local zone are not modelled.
- PluginDatabase.Verify: the normalization of a definition is a parameter, of which nothing is assumed.
- PluginDatabase.Migrate: what a statement does to the objects of a plugin and to the references between rows, and which foreign keys the definition of a table declares, are parameters; a key names its parent as the schema spells it.
- PluginDatabase.Erase: of the rows only the references among them are modelled, and every key refers to columns that are a key of its parent. What a drop does that fires a trigger, cascades through a thousand levels, or changes a referring row other than by clearing a column of its own is a parameter: the erasure is still all or nothing, and whether it succeeds then is not stated. Which of two rows deleted together goes first is part of the reference. The answer to the question for the objects of the plugin is a parameter that lists exactly its views and tables, in any order; that indexes and triggers stand on objects of the same plugin is what SQLite and the authorizer keep.
- PluginNamespace.PluginAuthorizer.Authorize: the deadline and the interruption of a statement are not modelled.
- User interface, textures, fonts, menus, web views and windows, network and HTTP, the Lua engine, building and packaging.
- Catalogs, themes, command line, colours, environment builders, frame scheduling and number formatting, which would add only easy members.
