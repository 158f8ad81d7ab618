# PointerForce, verified

PointerForce is a daemon that turns key and button presses of input devices into shell commands, together with a
web bridge that edits its configuration and shows its events. This project models both in Dafny and proves what
their parts promise each other. `dafny verify dfyconfig.toml` checks everything.

## What is modelled

| file | part of the system |
|---|---|
| `Common.dfy`, `Json.dfy` | events, device blocks, match criteria; parsed JSON documents and the two JsonCpp accessors that can throw |
| `KeyMapper.dfy` | the nested device/code table as a class, and the flat map that it stands for |
| `ConfigLoading.dfy` | the loader, from a JSON document to the global configuration, with its skip rules and failures |
| `DeviceMatching.dfy` | the scan that gives each event node a configuration block |
| `EventPipeline.dfy` | readers, queue, multiplexer, signals, control-socket commands and observers as one transition system |
| `PipelineProperties.dfy`, `PipelineObservers.dfy`, `PipelineControl.dfy`, `PipelineReaders.dfy` | what every interleaving of that system keeps |
| `PipelineFaults.dfy` | what a client sees of the daemon, and exactly which runs end the process |
| `Dispatching.dfy` | the queue, the observer registry, the readers and the multiplexer's own loop as classes; the loop performs a run of the transition system |
| `Framing.dfy`, `LineCodec.dfy` | JSON lines over a byte stream, the event-stream observer, the bridge's stream client; a codec such as they ask for |
| `ControlSession.dfy` | one control-socket connection amid whatever the other threads do |
| `Descriptors.dfy` | connections beside the transition system: descriptor numbers, what is written to them, clients hanging up, observers giving up |
| `DescriptorProperties.dfy`, `DescriptorRuns.dfy` | whose bytes a connection gets and what ends the process, over every run; runs on which it goes wrong |
| `ConfigEditing.dfy`, `ConfigAgreement.dfy` | the editor's validation, its atomic write and its device handlers; what the daemon makes of the files it leaves |
| `EventLines.dfy`, `EventFeed.dfy`, `Automap.dfy` | the text form of an event, the drop-oldest queue and the browser's log, the button-mapping wizard |
| `EndToEnd.dfy` | opened nodes to readers, dispatched events to the stream's client, and the theorems about runs read off the multiplexer object |

A run is a sequence of actions, each a whole critical section of one thread; every sequence of possible actions is
a run, so a statement about all runs is one about all interleavings. The histories in `Log` (events read, pushed
and dispatched, observer copies and calls, commands executed) are written by the steps and never consulted by
them. The theorems say what these histories are in terms of the actions alone: `Due`, `Owed`, `FlatAfter` and
`Registered` look only at the actions, the events and the loaded documents. A session, likewise, is run with a
script of what all other threads do between its requests; its conversation is told from the lines that its bytes
spell and from that script (`CourseOf`), and is part of a run of the daemon
(`ControlSession.ConversationIsPartOfARun`).

`EventMultiplexer` (in `Dispatching.dfy`) runs the source's loop on real objects, a `Mapper`, an `EventQueue`, a
`Config` and an `ObserverRegistry`, while a script of other threads' actions is let in between any two of its
steps. Its invariant says that the objects are in the state to which a run of the transition system has led, so
every theorem about runs holds of the objects (`EndToEnd.TheLoopObeysThem`).

## What the proofs brought to light

- The repository's README (line 168) says that the first non-empty match criterion decides. The code falls back
  from a vendor:product that differs to the name (`DeviceMatching.FallsBackToName`); the two rules agree exactly
  in the cases that `DeviceMatching.DocumentedRuleIff` names.
- A failed reload is reported as "keeping current config" (`src/multiplexer.cpp:26`; README line 689). The
  bindings in force are kept, but if the file parses the loader has by then dropped the device blocks and taken
  over the options that the document gives. It keeps everything exactly in the cases of `ConfigLoading.FailedLoadKeepsIff`;
  `ConfigLoading.FailedLoadsThatChange` has two documents that change something.
- A reload can end the daemon, since nothing catches what the JSON accessors throw on a document with ill-typed
  members (`PipelineFaults.AReloadCanEndIt`). So can a client that hangs up: the next press that its observer
  writes raises a signal that nothing ignores (`DescriptorRuns.AHangUpEndsIt`). A run ends the process exactly if a
  reload in it meets such a file, a client sends an ill-typed command line, or a reply or a press is written to
  a connection whose client has hung up (`DescriptorProperties.ProcessEndsIff`). No document that the editor accepts
  is such a file (`ConfigAgreement.SafeFilesNeverAbort`).
- The editor accepts blocks that the daemon drops: a POST without `match` is stored with an empty one, and the
  loader skips it with all its bindings (`ConfigAgreement.AcceptedButDropped`). The daemon does what an accepted
  document says exactly if every block that binds a known key is the wildcard's or has a non-empty criterion
  (`ConfigAgreement.SameMeaningIff`, `ConfigAgreement.UsableIff`).
- An observer holds the number of its connection, not the connection. `DescriptorRuns.ACallGoesAstray` is a run on
  which a client that asked for nothing is sent another's press. The bytes of a connection are those that its own
  session and its own observer wrote if and only if no call for a press finds the callee not given up, its connection
  closed, and that number now this connection's (`DescriptorProperties.BytesAreOwnIff`); none does if no
  connection is closed while its observer is still to be called (`DescriptorProperties.PatientClosingIsExact`).
- One write that fails, as when a signal interrupts it, and an observer sends nothing more, though its connection
  is open (`DescriptorRuns.AFailedWriteLoses`).
- POST followed by DELETE of the same fresh id gives the file back exactly if it had a device array before;
  otherwise an empty array is left behind (`ConfigEditing.PostThenDelete`, `ConfigEditing.NotRestored`).
- An event line survives printing and parsing exactly if its parts are printable in the sense of
  `EventLines.Printable`; arrows, brackets and state words inside the command do no harm, a bracket in the device
  id does (`EventLines.BracketInTheDevice`).
- The factor of two between the scan's assignment and the best one is reached (`DeviceMatching.HalfIsReachedBySome`).

## What is assumed

- Key names map to distinct, non-negative codes. The codes come from `<linux/input-event-codes.h>`, which is not
  part of this model, so the name table is a parameter of everything.
- JsonCpp: `isMember` throws on a value that is neither an object nor null, `asString` on an array or an object;
  `asString` of a number is some text that the model does not look into. The JSON text codec is a parameter: what it
  reads back is what was written, and the text of a message contains no newline (section 7 of RFC 8259 has
  control characters in strings escaped); `LineCodec` has a codec of that kind.
- One step each: a load with the rebuilding of the table that follows it, the loop test of a reader, an HTTP
  handler, a control-socket command with the gathering of its reply, and the emptying of a device's backlog after
  dropped events, which the source discards.
- Devices are read without blocking (`src/device.cpp:48`), so a read always gives something.
- Nothing in the source ignores the signal that a write to a client who has hung up raises: it ends the process.
  In the transition system of `EventPipeline.dfy` alone that is a step that may come at any time (`BrokenPipe`);
  `Descriptors.dfy` says which writes it is.
- Writing a frame or a reply is one step, which goes through, or fails after some of its bytes. A write to a number
  that nobody has fails. The descriptor numbers considered are those of control-socket connections.
- An events session ends when its observer has given up, the daemon stops, or the client has hung up.
- A `pop` that times out is a `pop` of an empty queue. Running a command is appending it to a history.
- The observers' map is its keys in order; ids are unbounded.
- The editor's file operations succeed or fail as the flags of `Disk` say; closing a file succeeds, and a rename
  that succeeds is atomic. An exception in an HTTP handler is answered as a server error.
- Nodes found by the scan have distinct paths and come sorted.

## Model

| member | source | states |
|---|---|---|
| KeyMapper.NameTablesInverse | src/mapper.cpp:86-96 | the two static tables are inverse to each other, on every name and on every code that has one |
| KeyMapper.CodeToNameIs | src/mapper.cpp:188-195 | a code with a name goes by that name, any other by KEY_UNKNOWN and its number |
| KeyMapper.DecimalIs | src/mapper.cpp:193 | the number is written in decimal digits that spell it, with a sign if it is negative |
| KeyMapper.InitIsLastBlockWins | src/mapper.cpp:100-109 | filling the table block by block gives the map in which the last block that binds a pair decides |
| KeyMapper.LastBlockWinsUnique | src/mapper.cpp:105-109 | that reading of a configuration determines the map |
| KeyMapper.NestedLookupIsFlat | src/mapper.cpp:121-143 | lookup in the nested table is exact-then-wildcard lookup in the flat map |
| KeyMapper.BindIsFlat | src/mapper.cpp:145-155 | binding by name changes exactly one pair of the flat map and stores only codes with a name |
| KeyMapper.UnbindIsFlat | src/mapper.cpp:157-167 | unbinding by name removes exactly one pair of the flat map |
| KeyMapper.UnbindExposesWildcard | src/mapper.cpp:126-140 | after a device's own binding is removed the wildcard answers for it; removing an absent binding changes nothing |
| KeyMapper.ExactBeatsWildcard | src/mapper.cpp:126-142 | an exact binding beats the wildcard's, which answers for every device without one |
| KeyMapper.BindAndUnbindAre | src/mapper.cpp:145-167 | after a bind the pair answers the command, after an unbind it is not bound, and no other pair changes |
| KeyMapper.Mapper.Init | src/mapper.cpp:100-109 | whatever was in the table is replaced by the fold of the loaded blocks |
| KeyMapper.Mapper.InitDevice | src/mapper.cpp:105-109 | one block's bindings override what earlier blocks of its id bound, whatever the order of the container |
| KeyMapper.Mapper.Lookup | src/mapper.cpp:121-143 | the device's own command if it has one for the code, else that under "*", else none; as in the flat map |
| KeyMapper.Mapper.AddBinding | src/mapper.cpp:145-155 | succeeds exactly on known names, and then sets one pair; otherwise nothing changes |
| KeyMapper.Mapper.RemoveBinding | src/mapper.cpp:157-167 | succeeds exactly if the name is known and the pair was bound; the flat map loses that pair only |
| KeyMapper.Mapper.AllBindings | src/mapper.cpp:169-179 | lists every binding exactly once, with the name of its code |
| KeyMapper.ReplayOfListingIsIdentity | src/mapper.cpp:145-195 | adding the entries of a listing by name to an empty mapper, in any order, gives the same map back |
| KeyMapper.Relist | src/mapper.cpp:145-195 | listing a mapper and adding each entry by name to a fresh one gives a mapper that answers every lookup alike |
| ConfigLoading.Config.Load | src/config.cpp:14-103 | outcome and all settings after any load, including exactly when a failed one leaves everything as it was |
| ConfigLoading.FailedLoadKeepsIff | src/config.cpp:30-48 | a failed load keeps the configuration if and only if the file did not parse, or there were no devices and the path and all given options are the current ones |
| ConfigLoading.FailedLoadsThatChange | src/config.cpp:31-48 | two documents whose failed load drops the devices or sets an option |
| ConfigLoading.LoadAndInit | src/multiplexer.cpp:23-24 | the table becomes that of the document on disk, or stays if loading fails |
| ConfigLoading.Config.ReadDevices | src/config.cpp:50-100 | the blocks are the usable entries in document order; throws exactly if some entry cannot be read |
| ConfigLoading.Config.ReadDevice | src/config.cpp:51-99 | one entry: skipped, kept or throwing, by the source's rules; a kept one has, member by member, the id, the three match criteria or the bare path, the grab flag and the bindings of the entry |
| ConfigLoading.Config.ReadBindings | src/config.cpp:87-97 | known keys with their commands as text, whatever the order; throws exactly if a known key's command is an array or object |
| ConfigLoading.BlockIs | src/config.cpp:57-97 | which member of an entry becomes which field of its block |
| ConfigLoading.UsableMeans | src/config.cpp:53-81 | exactly the entries with an id, and some non-empty criterion or the id "*", are kept |
| ConfigLoading.BlockReadableIff | src/config.cpp:53-95 | an entry throws exactly if it is neither object nor null, or would be kept and binds a known key to an array or object |
| ConfigLoading.CommandsAre | src/config.cpp:88-95 | the bindings are those of the known names, each with its value as text |
| ConfigLoading.StringIsRead | src/config.cpp:88-95 | a string under a known name is that code's command |
| ConfigLoading.LoadedIff | src/config.cpp:45-102 | a load succeeds exactly on an object with a device array of which every entry can be read |
| ConfigLoading.OptionsAre | src/config.cpp:35-42 | the three options are taken over exactly if they are given with the right type |
| ConfigLoading.CommandsUnique | src/config.cpp:88-96 | the code-to-command map of a block is determined by which names are known and what they are bound to |
| DeviceMatching.DocumentedRuleIff | src/devicemanager.cpp:80-96 | the code's match rule and the documented one agree if and only if no differing vendor:product is rescued by the name |
| DeviceMatching.FallsBackToName | src/devicemanager.cpp:87-93 | a concrete node and block on which the two rules differ |
| DeviceMatching.ContainsIff | src/devicemanager.cpp:91-93 | a name contains the criterion if and only if it is something, the criterion, and something |
| DeviceMatching.SysfsMatchesIff | src/devicemanager.cpp:80-96 | by the path alone if one is given; otherwise by an equal vendor:product or a part of the name |
| DeviceMatching.FitsByNameIff | src/devicemanager.cpp:91-93 | with a name criterion alone exactly the nodes with it in their name fit |
| DeviceMatching.DeviceManager.OpenAll | src/devicemanager.cpp:128-181 | the assignment is a stable matching: injective, fitting, openable, without a blocking pair; the entries are its pairs in path order |
| DeviceMatching.DeviceManager.ScanOne | src/devicemanager.cpp:133-174 | one candidate keeps stability, whether it finds a block, finds none or fails to open |
| DeviceMatching.DeviceManager.FirstFree | src/devicemanager.cpp:146-153 | the first block that is free and fits, or none |
| DeviceMatching.StableSnoc | src/devicemanager.cpp:146-169 | giving the next candidate the first free fitting block keeps the assignment stable |
| DeviceMatching.StableIsUnique | src/devicemanager.cpp:133-174 | there is only one stable assignment |
| DeviceMatching.UnopenableChangesNothing | src/devicemanager.cpp:161-167 | a candidate that cannot be opened leaves the others' blocks and the list of entries as they are |
| DeviceMatching.ExtraIsHeld | src/devicemanager.cpp:146-154 | whatever a candidate left without a block could have is held by an earlier one |
| DeviceMatching.AtLeastHalfOfAny | src/devicemanager.cpp:133-176 | no assignment of the same nodes to the same blocks holds more than twice as many |
| DeviceMatching.HalfIsReached | src/devicemanager.cpp:133-174 | the factor of two is reached by any two nodes of which the later fits only the earlier of two blocks that the other fits |
| DeviceMatching.HalfIsReachedBySome | src/devicemanager.cpp:133-174 | there are such nodes and blocks |
| DeviceMatching.OrderIsComplete | src/devicemanager.cpp:157-176 | there is an entry for every assigned candidate and for no other |
| DeviceMatching.EntriesFollowOrder | src/devicemanager.cpp:157-159 | entries are the assigned candidates in path order, each with its block |
| DeviceMatching.EntryPathsDistinct | src/devicemanager.cpp:157-169 | no two entries are of the same node |
| EventPipeline.ExecAppend | src/multiplexer.cpp:13-65 | runs compose |
| EventPipeline.ReaderStepsAre | src/devicemanager.cpp:246-283 | where each test, read, push and stop leads a reader |
| EventPipeline.ReaderEffectsAre | src/devicemanager.cpp:252-261 | what a read gets and a push hands over |
| EventPipeline.MuxStepsAre | src/multiplexer.cpp:18-62 | where each step leads the multiplexer |
| PipelineProperties.QueueStep | src/eventqueue.cpp:9-28 | any step of any thread keeps: pushed is dispatched, then in hand, then queued |
| PipelineProperties.ReadersStep | src/devicemanager.cpp:246-263 | any step of any thread keeps, for every reader: what it got is what was pushed from its node, then what it is about to push |
| PipelineProperties.Conservation | src/devicemanager.cpp:246-263 | in every reachable state each device's key events are, in order, those dispatched, in hand, queued and about to be pushed; nothing is lost, duplicated or reordered, across reloads too |
| PipelineProperties.LoadIsFlat | src/multiplexer.cpp:20-27 | a successful reload puts the last-block-wins map in force and discards runtime binds; a failed one changes no lookup |
| PipelineProperties.TableStep | src/control.cpp:217-246 | each step changes the flat map as its action says, or not at all |
| PipelineProperties.TableRefinesFlatMap | src/mapper.cpp:100-167 | over every run the nested table stands for the flat map told from the actions alone |
| PipelineProperties.CommandTrace | src/multiplexer.cpp:32-61 | over every run the executed commands are those due for the dispatched presses under the bindings in force at each lookup, in order, less at most the one not run yet |
| PipelineProperties.CommandForIs | src/multiplexer.cpp:37-49 | an event of value 1 gets the device's own command, else that under "*", else none; any other value none |
| PipelineProperties.ExecutedBelongToPresses | src/multiplexer.cpp:32-61 | over every run the commands executed, and the one still to be, are those of the dispatched events that have one, in order, and only events of value 1 have one |
| PipelineProperties.EachExecutedHasAPress | src/multiplexer.cpp:37-56 | each executed command is that of a dispatched event of value 1 |
| PipelineObservers.RegisteredSnoc | src/multiplexer.cpp:67-79 | an observer is registered from its own registration to its own removal |
| PipelineObservers.IdsNeverReused | src/multiplexer.cpp:70 | of two registrations the later gets the larger id |
| PipelineObservers.ReachableObservers | src/multiplexer.cpp:67-79 | in every reachable state the registry holds exactly the observers registered and not removed, ascending by id |
| PipelineObservers.ReachableNotify | src/multiplexer.cpp:81-92 | in every reachable state each dispatched event but the current one was copied for once, and calls made and owed are those of the copies, in order |
| PipelineObservers.ExecutionFollowsNotification | src/multiplexer.cpp:51-56 | a command runs only when all observers copied for its event have been called |
| PipelineObservers.OwedIsCopied | src/multiplexer.cpp:87-91 | an observer is in exactly the copies taken while it was registered, once each |
| PipelineObservers.EachObserverToldOnce | src/multiplexer.cpp:67-92 | over every run an observer is told exactly once, in dispatch order, of the events whose copy fell between its registration and removal, whatever happens during the calls |
| PipelineControl.RequestKeptRun | src/daemon.cpp:29-32 | until a load begins after a hangup the request is pending or just taken, and at most one event was looked up |
| PipelineControl.HangupPending | src/multiplexer.cpp:18-48 | wherever a hangup lands, the flag stays set and at most one lookup happens until the next exchange |
| PipelineControl.HangupIsServed | src/multiplexer.cpp:18-48 | by the second lookup after a hangup a load has begun after it |
| PipelineControl.HangupIsServedSoon | src/multiplexer.cpp:18-62 | a load begins after at most seven steps of the multiplexer and one for each observer still to be called or registered, then or since; until then it has a step to take unless it has returned or the process is gone |
| PipelineControl.NotRunningAgain | src/daemon.cpp:24-27 | once told to stop, the daemon is never told to run again |
| PipelineControl.ShutdownBoundsMux | src/multiplexer.cpp:18-62 | after that at most one more lookup and at most one more command |
| PipelineControl.ShutdownBoundsReader | src/devicemanager.cpp:246-263 | after that at most one more event pushed by each reader |
| PipelineControl.StoppingMuxReturns | src/multiplexer.cpp:18-65 | over any run a stopping multiplexer takes at most eight steps and one for each observer still to be called or registered, then or since, and is never stuck before it has returned or the process is gone |
| PipelineControl.StoppingReaderReturns | src/devicemanager.cpp:246-283 | over any run a stopping or inactive reader takes at most three more steps of its loop, and is never stuck before it has returned or the process is gone |
| PipelineControl.InactiveForever | src/devicemanager.cpp:203-219 | a reader that lost its device or was stopped never becomes active again, and one that returned stays so |
| PipelineReaders.ReadersFollowTheirLoop | src/devicemanager.cpp:246-283 | over every interleaving a reader makes just the reads its loop makes for the tests and results it meets, gets their key events, and is gone exactly when the loop is over |
| PipelineReaders.ReadsAreResults | src/devicemanager.cpp:252-261 | over every run the events read from a node are the key events among its reader's results |
| PipelineReaders.OneKey | src/devicemanager.cpp:255-261 | one key read gives one event, with the reader's id and node and the key's code, value and time |
| PipelineReaders.KeyEventsAreTheKeys | src/devicemanager.cpp:252-261 | the events are one for each key among the results, in order, with its code, value and time |
| PipelineFaults.ThrowsUnlessHarmless | src/config.cpp:35-98 | a load throws exactly on documents that are not objects or hold, in a device array, an entry that cannot be read |
| PipelineFaults.AbortedIff | src/multiplexer.cpp:20-27 | over every run the process ends if and only if a reload meets such a document, a client sends an ill-typed line, or the signal of a broken pipe comes |
| PipelineFaults.FatalDocuments | src/config.cpp:50-53 | two documents that no load gets through |
| PipelineFaults.AReloadCanEndIt | src/control.cpp:294-297 | from any state such a document and a reload end the process |
| PipelineFaults.WorldAfterRun | src/control.cpp:163-302 | over every run the bindings, the file, the devices' activity, the running flag and the end of the process are told from the actions alone |
| Dispatching.EventQueue.Push | src/eventqueue.cpp:9-16 | appends at the end |
| Dispatching.EventQueue.Pop | src/eventqueue.cpp:18-28 | takes the first event, also after shutdown; none exactly if the queue is empty |
| Dispatching.EventQueue.Shutdown | src/eventqueue.cpp:30-37 | closes without touching what is queued |
| Dispatching.DeviceEntry.ReaderFn | src/devicemanager.cpp:241-288 | pushes one event for each key among its reads, in order, with its code, value and time, up to the first failed test or disconnection, and none if inactive; goes inactive exactly on a disconnection |
| Dispatching.ObserverRegistry.Add | src/multiplexer.cpp:67-73 | hands out the next id and registers under it |
| Dispatching.ObserverRegistry.Remove | src/multiplexer.cpp:75-79 | exactly that id goes, and the order stays |
| Dispatching.EventMultiplexer.TestRunning | src/multiplexer.cpp:18 | the loop test is a step of the transition system |
| Dispatching.EventMultiplexer.TakeReload | src/multiplexer.cpp:20 | taking the flag clears it, as a step of the transition system |
| Dispatching.EventMultiplexer.Reload | src/multiplexer.cpp:21-27 | loading and rebuilding on the objects is the load step |
| Dispatching.EventMultiplexer.PopEvent | src/multiplexer.cpp:29-30 | popping the queue object is the pop step; nothing popped leads back to the loop test |
| Dispatching.EventMultiplexer.CommandOf | src/multiplexer.cpp:37-49 | only an event of value 1 has a command: what the table has for its device, else under "*", else empty |
| Dispatching.EventMultiplexer.FindCommand | src/multiplexer.cpp:37-49 | looking the event up in the mapper object is the lookup step |
| Dispatching.EventMultiplexer.CopyIds | src/multiplexer.cpp:85-89 | the private copy is that of the registry at that moment |
| Dispatching.EventMultiplexer.CallFirst | src/multiplexer.cpp:90-91 | one observer of the copy is called, or notify returns |
| Dispatching.EventMultiplexer.RunCommand | src/multiplexer.cpp:53-56 | executing is the last step for an event |
| Dispatching.EventMultiplexer.Notify | src/multiplexer.cpp:81-92 | whatever the other threads do meanwhile, notify performs a run that ends with every copied observer called |
| Dispatching.EventMultiplexer.CallAll | src/multiplexer.cpp:90-91 | the loop over the copy ends with nobody left to call |
| Dispatching.EventMultiplexer.HandleEvent | src/multiplexer.cpp:32-61 | lookup, notification and, for a non-empty command, execution, amid the other threads' steps, form a run |
| Dispatching.EventMultiplexer.TakeAndLoad | src/multiplexer.cpp:20-27 | the flag exchange and what follows from it, amid the other threads' steps, form a run |
| Dispatching.EventMultiplexer.Round | src/multiplexer.cpp:20-61 | the loop body leads from a passed test back to the next one |
| Dispatching.EventMultiplexer.Turn | src/multiplexer.cpp:18-62 | one test and, if it passes, one body |
| Dispatching.EventMultiplexer.Run | src/multiplexer.cpp:13-65 | for any number of rounds and any interference the loop performs a run of the transition system, makes all its rounds unless it returns, and returns only from its test |
| Dispatching.EventMultiplexer.ReaderActs | src/devicemanager.cpp:246-263 | a reader's step on the shared objects is a step of the transition system |
| Dispatching.EventMultiplexer.OutsideActs | src/control.cpp:152-302 | signals, binds, unbinds, socket reloads, ill-typed lines and observers coming and going on the shared objects are steps of the transition system |
| Framing.SplitAppend | src/control.cpp:140-148 | splitting into lines may go on from the unfinished tail: later bytes only add lines |
| Framing.SplitFirst | src/control.cpp:146-148 | taking the first line off a buffer leaves the remaining lines and the same tail |
| Framing.LinesEndAtNewlines | src/control.cpp:140-148 | lines end at newline characters and nowhere else |
| Framing.SendStr | src/control.cpp:26-35 | for every pattern of short writes, success means exactly the string went out and failure that a proper prefix did |
| Framing.EventObserver.OnEvent | src/control.cpp:258-274 | an event of value 1 is sent as one line with its device, node, key name, code and command, any other not at all; after what was sent before, the stream is whole frames of the first presses told, all of them unless the latch is set, and only then part of the next; once latched, nothing more goes out |
| Framing.OneMessage | src/control.cpp:262-271 | one event of value 1 is one message, with its device, node, key name, code and command; anything else is none |
| Framing.MessagesAreThePresses | src/control.cpp:262-271 | the messages are one for each event of value 1 told, in order, with its members |
| Framing.StreamEvents | frontend/services/ControlClient.cc:153-183 | however the bytes are cut into reads, the events handed on are those of the complete lines and the rest is kept |
| Framing.ChunkDecodes | frontend/services/ControlClient.cc:170-182 | a chunk adds exactly the events of the lines that it completes |
| Framing.DrainLines | frontend/services/ControlClient.cc:171-182 | all complete lines are taken off the buffer, empty and unparsable ones dropped |
| Framing.ReadLine | frontend/services/ControlClient.cc:62-76 | the first line, or everything if it is unfinished |
| Framing.FramesSplit | src/control.cpp:271-272 | a concatenation of frames spells exactly its messages |
| Framing.WellFramedLines | src/control.cpp:257-274 | a cut-off last frame adds no line |
| Framing.ClientSeesPrefix | frontend/services/ControlClient.cc:153-183 | whatever arrives, the events handed on are a prefix of the presses told, in order; all whole frames once everything sent arrived; all presses if the observer is not latched |
| Framing.AfterReplies | src/control.cpp:171-272 | replies sent whole before the stream only put their own lines before it |
| LineCodec.ThereIsACodec | src/control.cpp:264-272 | messages can be coded one to a line and read back |
| ControlSession.CommandsAreUnderstood | src/pfctl.cpp:139-165 | every command as pfctl and the bridge put it into JSON is read back by the daemon as it was meant |
| ControlSession.CommandsAre | src/control.cpp:152-212 | the commands as they stand in the JSON, and what is none |
| ControlSession.BindCommandsAre | src/control.cpp:217-246 | the same for bind and unbind, with and without all their members |
| ControlSession.IllTypedIff | src/control.cpp:154-243 | exactly which command lines end the process |
| ControlSession.AnArrayIsIllTyped | src/control.cpp:154 | one of them |
| ControlSession.Session.Handle | src/control.cpp:163-309 | each command has the effect of the matching step of the daemon on what clients see, and the reply that fits what it met; none if it ends the process |
| ControlSession.RepliesAre | src/control.cpp:154-309 | the reply to each kind of request |
| ControlSession.EffectsAre | src/control.cpp:217-302 | what each kind of request changes: one pair, all bindings or none, or the end of the process |
| ControlSession.Session.BindKey | src/control.cpp:226-230 | ok exactly on known key names; the bind step |
| ControlSession.Session.UnbindKey | src/control.cpp:242-245 | ok exactly if the pair was bound; the unbind step |
| ControlSession.Session.Reload | src/control.cpp:294-302 | loads the file as it is then; the reload step |
| ControlSession.Session.HandleStatus | src/control.cpp:163-173 | version, running flag, numbers of devices and of bindings, and the configuration path |
| ControlSession.Session.HandleBindings | src/control.cpp:196-212 | every binding of the device asked for, or of all, exactly once |
| ControlSession.ShownIsOf | src/control.cpp:200-208 | what is shown of any listing: each binding of the device asked for, or of all, exactly once, with its members |
| ControlSession.Session.OtherActs | src/control.cpp:119-122 | any other thread's step on the shared objects has the effect that the daemon's step has |
| ControlSession.Session.Filter | src/control.cpp:200-208 | the listing of one device, or of all if no device is given |
| ControlSession.Session.HandleClient | src/control.cpp:128-311 | for any cutting of the bytes into reads and anything the other threads do between the requests: one reply per non-empty line, in order, each fitting what its request met, up to the one that ends the conversation; otherwise the unfinished line stays in the buffer |
| ControlSession.Session.NextLine | src/control.cpp:140-148 | the next line of the whole stream, or the end with what is left of it |
| ControlSession.Session.HandleLine | src/control.cpp:149-309 | one line, empty, ending or answered, takes the conversation one step along its course |
| ControlSession.ServedInOrder | src/control.cpp:138-310 | the requests served are the first ones, in order, none of them ending; all of them, or up to an event stream or the end of the process |
| ControlSession.ConversationIsPartOfARun | src/control.cpp:119-311 | where the session's steps and the others' make up a run of the daemon, the run leads to what the conversation leaves |
| ControlSession.OutcomeIsDetermined | src/control.cpp:138-310 | two conversations over the same lines amid the same doings of others have the same end, leave the same daemon, and get the same replies, listings with the same entries, however the bytes were cut |
| ControlSession.ListingCount | src/control.cpp:170 | the reported binding count is the number of bindings |
| ConfigEditing.ValidateDevice | frontend/services/ConfigStore.cc:102-154 | accepts exactly the valid device blocks |
| ConfigEditing.Validate | frontend/services/ConfigStore.cc:156-204 | accepts exactly the valid documents, whose ids are all different |
| ConfigEditing.ValidDeviceMeans | frontend/services/ConfigStore.cc:102-154 | validity of a block, member by member |
| ConfigEditing.ValidConfigMeans | frontend/services/ConfigStore.cc:156-204 | validity of a document, member by member |
| ConfigEditing.ConfigFile.Write | frontend/services/ConfigStore.cc:206-243 | the file changes exactly on success, which needs a valid document and a working disk; a temporary file is left exactly when writing it fails |
| ConfigEditing.ConfigFile.Post | frontend/main.cpp:374-431 | reply and file after it, for any file, request and disk |
| ConfigEditing.ConfigFile.Put | frontend/main.cpp:436-495 | reply and file after it, for any file, request and disk |
| ConfigEditing.ConfigFile.Delete | frontend/main.cpp:500-542 | reply and file after it, for any file, request and disk |
| ConfigEditing.Search | frontend/main.cpp:409-417 | the first block that carries the id, none, or the exception met before it |
| ConfigEditing.CarriesIs | frontend/main.cpp:411 | a block carries the id that its id member reads as; looking throws on arrays and objects |
| ConfigEditing.NewDeviceIs | frontend/main.cpp:382-389 | a new block has the members given, an empty match and empty bindings without them, and no others |
| ConfigEditing.EditedIs | frontend/main.cpp:462-466 | an edited block has the match and grab given; everything else, and those if not given, as it was |
| ConfigEditing.PostAppends | frontend/main.cpp:408-418 | a successful POST puts the new block, whose id no other carries, after the others |
| ConfigEditing.PostRefusesDuplicates | frontend/main.cpp:408-417 | a POST of an id that a block carries is refused |
| ConfigEditing.RefusalsAre | frontend/main.cpp:375-404 | the refusals of all three before the devices are looked at |
| ConfigEditing.PutFindsNothingIff | frontend/main.cpp:454-483 | a PUT finds nothing exactly if the file can be read and no block carries the id |
| ConfigEditing.DeleteFindsNothingIff | frontend/main.cpp:511-529 | the same for DELETE |
| ConfigEditing.DeleteKeepsTheOthers | frontend/main.cpp:511-530 | a successful DELETE leaves exactly the blocks with other ids, in their order |
| ConfigEditing.RepliesMean | frontend/services/ConfigStore.cc:206-243 | success needs a valid document and all of the disk; anything else leaves the file |
| ConfigEditing.FileStaysValid | frontend/main.cpp:372-543 | after any sequence of requests the file is what it was at first or a valid document with unique ids and the same other members |
| ConfigEditing.PutChangesOneBlock | frontend/main.cpp:454-478 | a successful PUT changes the first block with the id and of it only the match and grab given; order, bindings, what is not given and all other blocks stay |
| ConfigEditing.PostThenDelete | frontend/main.cpp:405-530 | adding a block and deleting it again restores the device array, and the document exactly if it had one |
| ConfigEditing.NotRestored | frontend/main.cpp:405-406 | a document that is not restored |
| ConfigAgreement.BlocksAreKept | src/config.cpp:50-100 | the loaded blocks are the usable entries of the document, position by position |
| ConfigAgreement.OnlyBinder | src/mapper.cpp:105-109 | with unique ids no two blocks merge |
| ConfigAgreement.TableFollowsUsableBlocks | frontend/services/ConfigStore.cc:156-204 | an accepted document never makes the loader throw, loads exactly if it has devices, and then the table binds a pair to a command exactly if a block that takes part says so |
| ConfigAgreement.UsableIff | src/config.cpp:60-81 | of the accepted blocks exactly the wildcard's and those with a non-empty criterion take part |
| ConfigAgreement.AllLoadedIff | src/config.cpp:73-81 | all blocks of an accepted document are loaded if and only if all take part |
| ConfigAgreement.SameMeaningIff | src/config.cpp:73-97 | the table binds exactly what an accepted document says if and only if every block that binds a known key takes part |
| ConfigAgreement.AcceptedButDropped | frontend/main.cpp:384-389 | a request that is accepted and stored, and whose binding the daemon drops |
| ConfigAgreement.EditorLeavesSafeFiles | frontend/services/ConfigStore.cc:206-243 | the editor turns a harmless file into harmless files only |
| ConfigAgreement.SafeFilesNeverAbort | src/multiplexer.cpp:20-27 | while the file only holds what the editor would write, or nothing readable, no reload in any interleaving ends the process; exactly an ill-typed line or a client who has hung up does |
| EventLines.ParsedIsPrintable | frontend/webui/app.js:844-868 | the parser only ever yields printable parts |
| EventLines.PrintableParses | frontend/main.cpp:91-98 | a printable event is parsed back from its line, with no state |
| EventLines.RoundTripIff | frontend/webui/app.js:844-868 | the round trip holds if and only if the event is printable |
| EventLines.BracketInTheDevice | frontend/webui/app.js:845-848 | a device id for which it does not hold |
| EventLines.TrimIs | frontend/webui/app.js:848-849 | trimming takes off all outer white space and nothing else |
| EventLines.FormatIs | frontend/main.cpp:91-98 | the line as it stands, character by character |
| EventLines.IsSpaceIs | frontend/webui/app.js:848-854 | the characters that count as white space |
| EventLines.NoEvent | frontend/webui/app.js:845-850 | a line without both brackets, or with nothing after them, is no event |
| EventLines.StateIsRead | frontend/webui/app.js:856-865 | a state word between key and command is read as the state, and the command after it as it was |
| EventLines.StateWordExamples | frontend/webui/app.js:857 | state words count in any case and only as whole words |
| EventFeed.EventStreamState.OnEvent | frontend/main.cpp:117-124 | the queue stays a suffix of what was received, at most 501 long; only a queue of 501 loses a line, its oldest |
| EventFeed.EventStreamState.Pull | frontend/main.cpp:551-574 | the oldest line leaves the queue as one chunk, or a keep-alive goes out, cut to the buffer; what was delivered is a subsequence of what was received |
| EventFeed.ChunkIsWholeIff | frontend/main.cpp:571-573 | a line goes out whole if and only if it and its frame of eight characters fit the buffer |
| EventFeed.EventLog.AppendEventLine | frontend/webui/app.js:947-948 | the new line first, then the log as it was, cut to thirty |
| EventFeed.LogIsLastThirty | frontend/webui/app.js:939-951 | after any number of lines the log is the last thirty, newest first |
| Automap.Wizard.GoNext | frontend/webui/app.js:1136-1155 | maps a captured slot, fails one that is not mapped, and moves on or completes |
| Automap.Wizard.GoPrev | frontend/webui/app.js:1157-1161 | goes back one slot, changing none |
| Automap.Wizard.OpenModal | frontend/webui/app.js:1113-1118 | opens on a fresh wizard |
| Automap.Wizard.CloseModal | frontend/webui/app.js:1120-1123 | closes, keeping all else |
| Automap.Wizard.ResetAll | frontend/webui/app.js:1163-1167 | all slots pending again |
| Automap.Wizard.HandleEvent | frontend/webui/app.js:1171-1178 | only a press while open captures, and only the current slot |
| Automap.ValidStep | frontend/webui/app.js:1136-1188 | every handler keeps: index in range, slots before it decided, keys exactly where captured or mapped, extras hold the mapped extra buttons |
| Automap.CapturedStays | frontend/webui/app.js:1136-1145 | over any run without reset or reopening a captured or mapped slot never becomes failed or pending |
| Automap.CompletionDecidesAll | frontend/webui/app.js:1147-1154 | completion implies that every slot is mapped or failed |
| Automap.WizardRuns | frontend/webui/app.js:1136-1204 | both hold over every run from a fresh wizard |
| EndToEnd.OpenedReadersMayStart | src/main.cpp:128-155 | the readers started from any scan are fit to begin a run |
| EndToEnd.TheLoopObeysThem | src/multiplexer.cpp:13-65 | the objects changed by the multiplexer's loop satisfy the theorems on command trace, table, conservation, readers and observers |
| Descriptors.WiresAreARun | src/control.cpp:110-124 | connections come and go beside a run of the daemon |
| DescriptorProperties.WiresStaySane | src/control.cpp:257-288 | in every reachable state registered observers have open connections, each its own, and open connections different numbers |
| DescriptorProperties.BytesStep | src/control.cpp:261-273 | one step writes to a connection what its own session or observer writes, unless the guard of a stray call holds, and then something of another's |
| DescriptorProperties.BytesAreOwnIff | src/control.cpp:257-288 | over every run a connection's bytes are exactly those of its own session and observer if and only if no call of the run is for a press, by an observer that has not given up, whose closed connection's number the other one has |
| DescriptorProperties.OwnStreamIsFramed | src/control.cpp:257-274 | over every run an observer's own writes are whole frames of the first presses it was told of, all of them unless it has given up or its connection is closed, and only then part of the next |
| DescriptorProperties.PatientClosingIsExact | src/control.cpp:287-288 | if no connection is closed while its observer is still to be called, no call ever goes astray |
| DescriptorProperties.ProcessEndsIff | src/control.cpp:163-311 | over every run the process ends if and only if a reply or a press is written to a client who has hung up, a client sends an ill-typed line, or a reload meets a file that is not harmless |
| DescriptorRuns.ACallGoesAstray | src/multiplexer.cpp:84-91 | from any state in which the daemon may begin, a run on which a client that asked for nothing is sent another's press |
| DescriptorRuns.AHangUpEndsIt | src/control.cpp:277-285 | from any such state, a run on which a client hangs up between two peeks and the next press ends the process |
| DescriptorRuns.AFailedWriteLoses | src/control.cpp:272-273 | from any such state, a run on which an interrupted write loses a press while the connection stays open |
| EndToEnd.ClientIsHandedWhatItIsOwed | src/control.cpp:251-289 | over every interleaving, short or failing write and cutting into reads, a client on a connection to which no other's call went astray is handed the presses it is owed from the first on, in order, none twice or skipped; all it was told of once all has arrived, while the connection is open and no write has failed |

## Left out

- ControlSession.Session.HandleStatus: the list of devices is not emptied by the shutdown.
- ControlSession.Session.HandleClient: that a reply is cut short is ignored, as in the source; the bytes of replies are not modelled, nor the receive timeout, which is a hang-up.
- Framing.EventObserver.OnEvent: the one object by itself; what other writers do to its connection is the subject of Descriptors, whose calls obey the same invariant.
- Dispatching.DeviceEntry.ReaderFn: what each test finds of the flags that other threads change is given; PipelineReaders.ReadersFollowTheirLoop is about those they find in a run.
- EventFeed.EventStreamState.Pull: lengths are in characters, not bytes.
- Framing.StreamEvents: reads are the non-empty ones; polling, its timeouts and the flag that ends the loop are the end of the list of reads.
- Dispatching.EventMultiplexer.Run: watched for a finite number of rounds; messages to the log are left out.
- ConfigEditing.ConfigFile.Post: requests that overlap are taken one after the other, as are those of PUT and DELETE; the source holds no lock between reading and writing.
- Automap.Wizard.GoNext: the extra buttons' entries are changed by the wizard only while it is open; drawing and messages are left out.
- Reading sysfs, the directory scan, opening and grabbing devices, `src/device.cpp`: each node's identity and whether it opens are given.
- `src/event.cpp`, the single-device loop that the build does not include.
- Daemonising, the PID file, command-line flags, socket set-up and permissions, `src/executor.cpp`'s fork and exec.
- The overlap of reloads by signal and by socket, which share no lock in the source.
- GET and raw PUT of the whole configuration, the bridge's other handlers, routing, static files, and the browser's rendering.
- The parsing of server-sent events in the browser, and the text of error messages.
