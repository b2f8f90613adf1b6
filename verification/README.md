# ArcDPS Timer: event log, relay and triggers

A Dafny model of the parts of ArcDPS-Timer and ArcDPS-Timer-Server that are hard to get right by reading.

**The event log.** Every player's addon keeps a log of timer events. Each local key press, trigger or map
change and each message from another player appends one entry, after which the whole log is sorted by time and
uuid, folded through a stopped/prepared/running machine, and stripped, for good, of every entry the machine
refused. Timer, history and segment table are rebuilt by the same fold. `Events` and `Evaluation` define the
order and the machine, `EventStores` is the class with the program's loop, proved against them. On top of that:

- `LogGrammar` says which logs evaluation leaves alone, in terms of the entries only;
- `Delivery` says when delivering events one by one to a pruned log gives what one evaluation of everything
  gives: always in order, not always out of order. A stop that overtakes its start is lost for good, so replicas
  can diverge. `Orders` has the exact condition, for any number of events: all delivery orders of some new events
  agree if and only if every event that survives delivery in order is accepted in the log's status, blocked by no
  event before it, and not to be replaced by one with its uuid; all of it is read off kinds, keys and uuids. From
  the empty log this covers everything players ever receive;
- `Convergence` has the cases in which the condition holds (within a run, in a race of starts) and barriers;
- `Echoes` has what a player sends of an event, a copy with the time moved by the clock offset, cut to
  milliseconds, and without the name, and the exact condition for the copy that comes back to leave the log
  alone. `Replicas` carries convergence over to what players really hold: each its own events at its own clock
  and with names, all others and all echoes as sent, in any orders, with any repeats, under an unstable sort,
  as long as no clock reorders anything;
- `Reordering` and `Players` have what clocks that do reorder decide, for any number of events: all players keep
  the same events and the same status, whatever their clocks, delivery orders and copies, if and only if no two of
  the new events clash, by kind, in the status they come upon;
- `DerivedTables` and `SegmentTables` read timer, history and segment table off the log; `SavedLogs` is the file written when the
  player leaves a map.

**The relay.** `RelayModel` is the server as a step system: one step per handler, since one thread runs them
all. `Relay` has the objects (sessions, groups, the registry), each handler proved to take the step the
system gives it. `GroupAgreement` adds the client and the connection between them.

**Triggers and clock.** `Triggers` is the trigger geometry, over exact reals, and the watcher. `Ntp` is the
clock offset estimate and its error bound (section 8 of RFC 5905).

Where code and intent differ the model follows the code:

- `is_valid` builds a validator and never applies it (ArcDPS-Timer-Server/session.cpp:206-216), so a command is
  refused only if the built-in schema itself is rejected; refusal is an input of the model.
- No code assigns a group's name. The default group therefore broadcasts like any other, and a group that gets
  empty erases the registry key `""` instead of its own (ArcDPS-Timer-Server/group.cpp:9-20).
- An event is posted with its time moved by the clock offset and cut to milliseconds and without its name
  (ArcDPS-Timer/eventstore.cpp:281-291), while the sender's own entry keeps both. The echo can sort before the
  original and then takes its place.
- The best times of the segment table start at zero, so they never get positive, and a segment entry computes
  them from the stop of an earlier entry (ArcDPS-Timer/eventstore.h:75-76, ArcDPS-Timer/eventstore.cpp:190-193).
- Only clock offsets above ten seconds are refused, not those below minus ten (ArcDPS-Timer/ntp.cpp:34-36).

`dafny verify dfyconfig.toml` checks the project.

## Model

| member | source | states |
|---|---|---|
| Events.SortIsUnique | ArcDPS-Timer/eventstore.cpp:107 | An unstable sort by (time, uuid) has one possible result when equal keys mean equal entries |
| Events.InsertIsSort | ArcDPS-Timer/eventstore.cpp:107 | Sorting one appended entry into a sorted log is putting it at its place |
| Evaluation.DuplicateDropped | ArcDPS-Timer/eventstore.cpp:123-127 | An entry right behind a survivor with its uuid leaves no trace in state or survivors |
| Evaluation.PruningKeepsMeaning | ArcDPS-Timer/eventstore.cpp:247-259 | Evaluating the erased log again reaches the identical state, history and segments, and erases nothing |
| Evaluation.SeenIsSurvivors | ArcDPS-Timer/eventstore.cpp:247-249 | Exactly the survivors' uuids are remembered, each uuid survives once |
| Evaluation.KeptSorted | ArcDPS-Timer/eventstore.cpp:107-127 | The survivors of a sorted log are strictly sorted, even if the log had equal keys |
| Evaluation.PrunedPrefix | ArcDPS-Timer/eventstore.cpp:123-254 | A pruned log splits anywhere into two parts that are pruned where they stand |
| LogGrammar.StatusReads | ArcDPS-Timer/eventstore.cpp:129-245 | The status is what the last start, stop, reset, prepare or map change of a pruned log says |
| LogGrammar.PrunedIffWellFormed | ArcDPS-Timer/eventstore.cpp:123-254 | Evaluation keeps a whole log if and only if uuids are distinct, no entry is `none`, segments lie in open runs, starts outside them, stops follow a start or prepare, prepares come upon a stopped timer |
| LogGrammar.SurvivorsAreWellFormed | ArcDPS-Timer/eventstore.cpp:106-254 | What is left of any sorted log is strictly sorted and well formed in that sense |
| LogGrammar.StartsAreSeparated | ArcDPS-Timer/eventstore.cpp:158-214 | Between two surviving starts there is a stop, a reset or a map change |
| Delivery.DeliverAllSettles | ArcDPS-Timer/eventstore.cpp:275-279 | However events arrive, the log stays sorted and pruned |
| Delivery.DeliverSettles | ArcDPS-Timer/eventstore.cpp:252-259 | The state shown after a delivery is the state of the pruned log, not only of the log before erasing |
| Delivery.ArrivalOrderIsIrrelevant | ArcDPS-Timer/eventstore.cpp:107-260 | One evaluation depends only on the multiset of entries, when equal keys mean equal entries |
| Delivery.AnySortInserts | ArcDPS-Timer/eventstore.cpp:107 | Any sort of a sorted log with one new entry appended is that log with the entry at its place |
| Delivery.IncrementalIsBatch | ArcDPS-Timer/eventstore.cpp:106-279 | In-order delivery with pruning after every event ends in the log and state of one evaluation of everything |
| Delivery.AlwaysHarmlessIff | ArcDPS-Timer/eventstore.cpp:129-254 | A kind of event, under a new uuid, can come late to any log without harm if and only if it is not one of start, stop, reset, prepare, map change |
| Delivery.TwoOrdersAgreeIff | ArcDPS-Timer/eventstore.cpp:157-254 | The case of two new events, by kinds: both orders give the same log, except exactly when both uuids are new and distinct and the earlier event unlocks the later one in the current status |
| Delivery.StopOvertakesStart | ArcDPS-Timer/eventstore.cpp:203-222 | A stop that reaches a stopped log before its start is lost for good and the timer keeps running |
| Delivery.LateStartDiverges | ArcDPS-Timer/eventstore.cpp:203-222 | The smallest example: start at 5, stop at 10, delivered in both orders to empty logs |
| Delivery.EchoChangesNothing | ArcDPS-Timer/eventstore.cpp:123-127 | A surviving event that comes back verbatim changes neither log nor state, for any sort |
| Delivery.SameClockRuns | ArcDPS-Timer/eventstore.cpp:123-250 | What survives of a suffix and its final status depend on what stands before only through the status and the remembered uuids |
| Orders.AllOrdersAgreeIff | ArcDPS-Timer/eventstore.cpp:106-279 | For any events newer than the log: all delivery orders, pruning after each, give the same log if and only if every survivor of delivery in order is accepted in the log's status, blocked by no event before it, and replaceable by none with its uuid |
| Orders.OrderFreeConverges | ArcDPS-Timer/eventstore.cpp:106-279 | Under that condition any delivery, with repeats and with entries of the log once more, ends as one evaluation of everything |
| Orders.LoseUnsure | ArcDPS-Timer/eventstore.cpp:157-254 | A survivor that fails the condition is lost for good in some order |
| Orders.SureSurvives | ArcDPS-Timer/eventstore.cpp:123-254 | An event that meets the condition survives among any of the events it is delivered with |
| Orders.ExtrasAreRefused | ArcDPS-Timer/eventstore.cpp:247-254 | A pruned selection of events that holds all survivors of the whole holds nothing else |
| Orders.PairsDoNotDecide | ArcDPS-Timer/eventstore.cpp:224-243 | Behind a prepared log a stop, a start and a stop agree pairwise in both orders, and the three do not in all |
| Convergence.RunDeliveryIsBatch | ArcDPS-Timer/eventstore.cpp:106-260 | Segments and stops newer than a running log, old and repeated region uuids among them, and entries of the log once more, in any delivery order and with any repeats, end as one evaluation of all of them |
| Convergence.SurvivorsWin | ArcDPS-Timer/eventstore.cpp:124-202 | Of a run there survive exactly the earliest stop and, before it, the earliest segment of each uuid, uuids already in the log aside |
| Convergence.RunOutcome | ArcDPS-Timer/eventstore.cpp:123-260 | In every delivery order the log is the old log followed by exactly those winners, strictly sorted |
| Convergence.RunReplicasConverge | ArcDPS-Timer/eventstore.cpp:106-260 | Replicas that received the same run events, in any orders and with any repeats, have equal logs, timers, histories and segments |
| Convergence.SecondStart | ArcDPS-Timer/eventstore.cpp:224-235 | Of two starts behind a prepared log the earlier one stays |
| Convergence.EarliestStartWins | ArcDPS-Timer/eventstore.cpp:224-235 | Any starts racing behind a prepared log, in any order and with repeats and old entries among them, leave exactly the earliest new one, the timer running from its time and marked prepared |
| Convergence.BarrierShields | ArcDPS-Timer/eventstore.cpp:129-145 | From a map change or reset on, a log means the same for status and times whatever stood before |
| Convergence.LateEventStopsAtBarrier | ArcDPS-Timer/eventstore.cpp:129-145 | A late event that sorts before a barrier, under a uuid new from there on, changes neither the log from the barrier on nor status and times |
| Convergence.LateEventsStopAtBarrier | ArcDPS-Timer/eventstore.cpp:129-145 | The same for any number of late events in any order |
| Echoes.WireTime | ArcDPS-Timer/eventstore.cpp:289-291 | The time sent is the last whole millisecond of the local time plus the offset, and the offset the clock's with less than a millisecond cut off toward zero |
| Echoes.WireKeepsTheRest | ArcDPS-Timer/eventstore.cpp:262-287 | A copy sent, and an entry rebuilt from it, keep type, source and uuid and have no name |
| Echoes.WireIsEarlierIff | ArcDPS-Timer/eventstore.cpp:281-291 | A copy sorts before its original if and only if the offset is negative, or zero and the local time lies between milliseconds; it has the original's key if and only if the offset is zero and it does not |
| Echoes.EchoIsHarmlessIff | ArcDPS-Timer/eventstore.cpp:123-273 | The echo of an entry leaves the log alone if and only if it does not sort before the original, or the timer refuses its kind where it sorts in |
| Echoes.EchoReplaces | ArcDPS-Timer/eventstore.cpp:123-273 | Otherwise the echo survives and the original is erased; with no entry between them the one stands in the other's place |
| Echoes.EchoOvertakes | ArcDPS-Timer/eventstore.cpp:123-273 | If no entry between the echo's place and the original clashes with it where it stands, all other entries stay, and so does the status |
| Echoes.EchoAtSameTime | ArcDPS-Timer/eventstore.cpp:107-127 | An echo whose time the shift left unchanged leaves the log as it was or stands in for the original, with the same status, times and prepared flag |
| Echoes.EchoOrders | ArcDPS-Timer/eventstore.cpp:107 | Both outcomes of an echo at the original's time happen: each order of the two is a legal sort |
| Replicas.KeptImage | ArcDPS-Timer/eventstore.cpp:123-250 | Evaluation reads neither names nor, once the order is given, times: a log and its image under a view keep the same entries and show the same but for them |
| Replicas.TimesImage | ArcDPS-Timer/eventstore.cpp:129-214 | No time shown by timer, history or segments differs by more than the entries' times do, and no best time by more than twice that and a millisecond |
| Replicas.DeliveryIsImage | ArcDPS-Timer/eventstore.cpp:107-279 | Whatever an unstable sort does with copies of one event, through a view that reorders nothing one addition is the delivery of the common copy |
| Replicas.EvolutionIsImage | ArcDPS-Timer/eventstore.cpp:107-279 | The same for any sequence of additions |
| Replicas.ReplicasAgree | ArcDPS-Timer/eventstore.cpp:106-291 | Players who hold and receive the same events, each in its own copies, orders and repeats, end with the same events in the same order, if no view reorders anything and the common copies meet the condition of AllOrdersAgreeIff |
| Replicas.PlayersAgree | ArcDPS-Timer/eventstore.cpp:262-291 | In a run, with own entries at local times and with names and all others as sent: same events, same order, same timer and tables, no time shown differing by more than both offset bounds and two milliseconds, best times accordingly |
| Replicas.RunReplica | ArcDPS-Timer/eventstore.cpp:106-291 | In a run every player's log comes to the old log and exactly the winners of the common copies |
| Replicas.RaceReplica | ArcDPS-Timer/eventstore.cpp:224-291 | In a race of starts every player ends with its copy of the earliest, the timer running from that copy's time |
| Replicas.BarrierReplica | ArcDPS-Timer/eventstore.cpp:129-145 | The barrier holds for the program's own log, unstable sorts and copies included: from it on nothing changes, nor do status and times |
| Replicas.SpacedKeepsOrder | ArcDPS-Timer/eventstore.cpp:289-291 | A view reorders nothing among events that were sent further apart than any two shifts |
| Reordering.ArrangementsAgreeIff | ArcDPS-Timer/eventstore.cpp:123-250 | Any events, put in every order clocks may put them, leave the same survivors and status if and only if no two new ones clash in the status they came upon |
| Reordering.NoClashCounts | ArcDPS-Timer/eventstore.cpp:123-250 | Without a clash exactly the events accepted in the first status survive, and any of those that move the timer leads to the final status |
| Reordering.ClashTears | ArcDPS-Timer/eventstore.cpp:123-250 | For any clashing pair among any events, two orders of all of them that end differently |
| Reordering.NoClashIsOrderFree | ArcDPS-Timer/eventstore.cpp:106-279 | Events that do not clash meet the condition of AllOrdersAgreeIff too |
| Reordering.NeighboursTradePlaces | ArcDPS-Timer/eventstore.cpp:123-250 | In a log of any length, neighbours that do not clash where they stand may trade places without changing who survives or the final status |
| Players.AllPlayersAgreeIff | ArcDPS-Timer/eventstore.cpp:106-291 | All players whom some events reach, from logs of equal standing, in their own copies, clocks, delivery orders and sorts, keep the same events and the same status if and only if no two new events clash in the status they come upon |
| Players.PlayerOutcome | ArcDPS-Timer/eventstore.cpp:106-291 | Then every player is left with exactly the events accepted in that status, and with the status any mover among them leads to |
| Players.SomePlayer | ArcDPS-Timer/eventstore.cpp:106-291 | Every order of the events is that of some player's clock, and its log stands as after evaluating them in that order |
| Players.SwappedCopiesAgreeIff | ArcDPS-Timer/eventstore.cpp:157-254 | The case of two new events: two players whose clocks put them in opposite orders keep the same events and status if and only if the two kinds do not clash |
| DerivedTables.TimerReads | ArcDPS-Timer/eventstore.cpp:129-245 | Start time, stop time and prepared flag read off the log: the last entries that set them, the end of time without any, and whether the last start came upon a prepared timer |
| DerivedTables.HistoryIsFinishedRuns | ArcDPS-Timer/eventstore.cpp:129-162 | History is exactly, in order, the finished runs no history_clear follows, each from start to stop under the last map change's name or "Unknown" |
| DerivedTables.HistoryIsChronological | ArcDPS-Timer/eventstore.cpp:162 | Every history entry runs forward and ends before the next begins |
| SegmentTables.FlagsRead | ArcDPS-Timer/eventstore.cpp:137-214 | Whatever the timer is doing, exactly the slots taken since the last start, reset or segment_clear are set; map changes and prepares clear none |
| SegmentTables.SlotsAreRead | ArcDPS-Timer/eventstore.cpp:164-197 | Every slot has the times of the entry that filled it last, the name of the last segment that did, and as best times the least of zero and what the entries that filled it measured, segments up to the stop before them |
| SegmentTables.SpansAreCut | ArcDPS-Timer/eventstore.cpp:173-174 | Measured spans are cut to whole milliseconds toward zero |
| SegmentTables.MachineReads | ArcDPS-Timer/eventstore.cpp:106-260 | Timer, history and segment table of a pruned log are all read off its entries |
| DerivedTables.TableInvariant | ArcDPS-Timer/eventstore.cpp:137-214 | After any entries in any order the set slots come first, in a run exactly those below the index are set, and best times are never positive |
| DerivedTables.TableLength | ArcDPS-Timer/eventstore.cpp:149-213 | The table is as long as the most slots any run has used since the last segment_clear, and in a run the index counts the slots used |
| DerivedTables.RunMarks | ArcDPS-Timer/eventstore.cpp:180-197 | In a run the filled slots go from boundary to boundary of the run since its last segment_clear, each named by the segment that ends it |
| DerivedTables.SegmentsTelescope | ArcDPS-Timer/eventstore.cpp:159-178 | A stop that ends a run leaves a gapless chain of set slots up to the stop, from the last boundary up to the last segment_clear of the run; without one it begins at the start and adds up to the new history entry |
| SavedLogs.MapStart | ArcDPS-Timer/eventstore.cpp:63-72 | The saved part begins just behind the last map change, or at the beginning |
| SavedLogs.SaveLog | ArcDPS-Timer/eventstore.cpp:57-89 | Saved are the entries since the last map change, sorted, under that map's name; nothing if there are none or saving is off |
| SavedLogs.FirstMapIsSaved | ArcDPS-Timer/eventstore.cpp:60-78 | Without a map change the whole log is saved under no name, and an empty one not at all |
| SavedLogs.LaterMapIsSaved | ArcDPS-Timer/eventstore.cpp:63-78 | What follows the last map change is saved under its name, "Unknown" for none, and nothing if nothing follows |
| SavedLogs.StoppedAtMapStart | ArcDPS-Timer/eventstore.cpp:129-136 | Where the saved part begins the timer is stopped |
| SavedLogs.TailStandsAlone | ArcDPS-Timer/eventstore.cpp:57-74 | Entries behind a stopped timer are kept and end in the same status when evaluated alone |
| SavedLogs.SavedLogStandsAlone | ArcDPS-Timer/eventstore.cpp:57-74 | A saved log evaluated alone keeps every entry and ends in the full log's status, with its start time if any entry moves the timer |
| EventStores.EventStore.ReevaluateState | ArcDPS-Timer/eventstore.cpp:106-260 | Log, tables and timer become those of evaluating and pruning some sort of the entries |
| EventStores.EventStore.EvaluateEntries | ArcDPS-Timer/eventstore.cpp:109-250 | The loop marks exactly the entries the machine refuses and ends with the machine's state and tables |
| EventStores.EventStore.SwitchOnStatus | ArcDPS-Timer/eventstore.cpp:156-245 | Start, stop, prepare and segment entries act, or are refused, as the machine does in each status |
| EventStores.EventStore.FillSlot | ArcDPS-Timer/eventstore.cpp:164-176 | The slot at the index is filled, a new one if the table has none left, and every other slot stays |
| EventStores.EventStore.EraseIrrelevant | ArcDPS-Timer/eventstore.cpp:252-254 | The marked entries and no others go, the order stays |
| EventStores.ClearFlags | ArcDPS-Timer/eventstore.cpp:142-144 | Every slot's set flag goes down and nothing else changes |
| EventStores.EventStore.AddEvent | ArcDPS-Timer/eventstore.cpp:275-291 | The event is delivered to the log, timer, history and segment table are what the pruned log's entries say, and the copy posted to the server has the moved and cut time and no name |
| EventStores.EventStore.Sync | ArcDPS-Timer/eventstore.cpp:262-273 | A server message is delivered without its name; a copy of an entry of the log changes nothing if its time is later, may stand in for the entry if the time is the same, and if it is earlier replaces the entry exactly when the timer accepts it there |
| EventStores.EventStore.GetTimerState | ArcDPS-Timer/eventstore.cpp:41-47 | Only the current time of a running timer is touched |
| EventStores.EventStore.DispatchEvent | ArcDPS-Timer/eventstore.cpp:18-39 | A combat start is added if and only if the log's last transition is a prepare, or a start upon a prepared timer less than 30000000 ticks ago; every other event always is; what is not added changes nothing; a map change first saves the old map's log |
| EventStores.EventStore.SaveMapLog | ArcDPS-Timer/eventstore.cpp:91-96 | Saves the current map's part of the log |
| EventStores.GateReads | ArcDPS-Timer/eventstore.cpp:19-31 | What the gate asks of the timer is that of the log, for every log, start time and present |
| EventStores.LateCombatStart | ArcDPS-Timer/eventstore.cpp:19-31 | Behind a prepared run the gate opens exactly in its first three seconds; then the earlier of the two starts sets the clock |
| RelayModel.StepKeepsInv | ArcDPS-Timer-Server/session.cpp:13-140 | Every handler keeps: a session receives for no group but the one it remembers, for that one while it reads and can write, for none once it reads no more; registry keys name distinct groups; write queues are in order |
| RelayModel.MembershipAfter | ArcDPS-Timer-Server/group.cpp:5-15 | Who receives for which group after each kind of step: only a session's own connection, joins and errors move it |
| RelayModel.MembershipHistory | ArcDPS-Timer-Server/session.cpp:13-130 | In every reachable state a session receives for the group it remembers if and only if it is still read and no write to it failed since it connected or last joined, and for no other |
| RelayModel.StepQueues | ArcDPS-Timer-Server/session.cpp:20-26 | Which messages each kind of step queues for each session |
| RelayModel.BroadcastIsComplete | ArcDPS-Timer-Server/group.cpp:17-25 | A session that stays in a group gets, as state messages, exactly the events posted to it, its own included, in the order handled |
| RelayModel.TotalOrder | ArcDPS-Timer-Server/group.cpp:17-25 | Two sessions that both stay in a group are sent the same state messages in the same order |
| RelayModel.QueueSteps | ArcDPS-Timer-Server/session.cpp:113-140 | Sends, completed writes and failed writes keep at most one write outstanding, of the queue's front |
| RelayModel.WriteQueueHistory | ArcDPS-Timer-Server/session.cpp:113-140 | Over any run: written messages followed by the queue are the messages queued, in order; after a failed write the wire never changes |
| RelayModel.WireProgress | ArcDPS-Timer-Server/session.cpp:113-132 | Over any run a session's wire grows by one message per completed write, the next in the order queued, and by nothing else |
| RelayModel.WritingNeverStalls | ArcDPS-Timer-Server/session.cpp:113-140 | While messages wait and no write has failed, the next is being written, and its completion shortens the queue by one |
| RelayModel.RegistryAfter | ArcDPS-Timer-Server/group.cpp:9-32 | After each step the registered names are those before and the one looked up, except the empty name when a group is left empty; no name changes its group |
| RelayModel.SinceStart | ArcDPS-Timer-Server/server.cpp:3-22 | Both hold of a server since it started, with no assumption on its state |
| Relay.Session.Start | ArcDPS-Timer-Server/session.cpp:13-18 | A session begins in the default group, reading |
| Relay.Session.SendData | ArcDPS-Timer-Server/session.cpp:134-140 | A message is queued, and written at once only if no write is in progress |
| Relay.Session.OnWritten | ArcDPS-Timer-Server/session.cpp:118-130 | A completed write drops the front and writes the next; a failed one leaves the group and drops nothing |
| Relay.Group.Leave | ArcDPS-Timer-Server/group.cpp:9-15 | The receiver goes; a group that gets empty erases the registry key of its name |
| Relay.Group.SendMessage | ArcDPS-Timer-Server/group.cpp:17-25 | Every receiver is sent the message once, in whatever order the set is walked |
| Relay.Registry.GetGroup | ArcDPS-Timer-Server/group.cpp:27-32 | A known name gives its group; an unknown one adds one new empty group under that key |
| Relay.Server.AcceptConnection | ArcDPS-Timer-Server/server.cpp:10-22 | Accepting takes the accept step of the system |
| Relay.Server.ReadCompleted | ArcDPS-Timer-Server/session.cpp:31-109 | The read handler takes the read step for its input: join, state, version, anything else, bad JSON, refused command, failed read |
| Relay.Server.OnJoin | ArcDPS-Timer-Server/session.cpp:59-73 | Looking up, joining and leaving in the handler's order is the system's join, re-joins included |
| Relay.Server.Quit | ArcDPS-Timer-Server/session.cpp:99-107 | Every error path leaves the group and reads no more |
| Relay.Server.WriteCompleted | ArcDPS-Timer-Server/session.cpp:118-130 | The write handler takes the system's write step |
| GroupAgreement.Api.StartSync | ArcDPS-Timer/api.cpp:38-81 | How each outcome of the version exchange sets the status |
| GroupAgreement.Api.ModImgui | ArcDPS-Timer/api.cpp:93-121 | A frame writes a join exactly when online and the wanted group, "default" for none, differs from the current one |
| GroupAgreement.Api.PostServerApi | ArcDPS-Timer/api.cpp:18-36 | A state message is written only while online |
| GroupAgreement.Api.Receive | ArcDPS-Timer/api.cpp:129-157 | An error line, an unreadable line or a lost connection puts the client offline |
| GroupAgreement.WorldStepKeeps | ArcDPS-Timer/api.cpp:93-121 | Every step of client, channel and server keeps the agreement on the group |
| GroupAgreement.GroupsAgree | ArcDPS-Timer/api.cpp:98-115 | In every reachable state of an online client with a live session, its id is the group of the last join under way or else the key its session's group is registered under; the session receives for that group unless a write failed, and for no other |
| GroupAgreement.FrameWants | ArcDPS-Timer/api.cpp:98-115 | After a frame an online client's id is the wanted group, "default" for none, and if that is a change a join for it is written last or, if it cannot be, the client is offline; a client that is not online does nothing |
| GroupAgreement.WantedGroupIsReached | ArcDPS-Timer/api.cpp:93-121 | Once an online client has wanted a group and no later frame wants another, its session, while read, is in the group registered under that name as soon as the joins under way are read |
| GroupAgreement.ChannelIsFifo | ArcDPS-Timer/api.cpp:18-115 | The server reads what the client wrote, joins, posts while online, and the version request, in order and each line once |
| GroupAgreement.StatusAfter | ArcDPS-Timer/api.cpp:61-79 | Exactly version 10 puts the client online; exactly unwritable joins, error lines, unreadable lines and the end of the connection put it offline |
| GroupAgreement.OnlineWasAnswered | ArcDPS-Timer/api.cpp:61-69 | Whoever is online was answered with version 10 |
| Triggers.NormBelowIsNormBelow | ArcDPS-Timer/trigger_region.cpp:45-48 | Comparing squares says what comparing a norm with a limit says |
| Triggers.DistanceFromVertex | ArcDPS-Timer/trigger_region.cpp:73-78 | Along the base line the squared distance is a parabola with its vertex at the projection |
| Triggers.ProjectionIsNearest | ArcDPS-Timer/trigger_region.cpp:73-78 | No point of the line is nearer to the player than the projected point |
| Triggers.PlaneAcceptsNearSegment | ArcDPS-Timer/trigger_region.cpp:69-86 | A plane accepts a point if and only if it is in the height band, beside the base segment and less than thickness away from some point of the segment |
| Triggers.PlaneIsSymmetric | ArcDPS-Timer/trigger_region.cpp:69-86 | Swapping the two sides changes no answer |
| Triggers.SphereAcceptsWithin | ArcDPS-Timer/trigger_region.cpp:45-48 | From a sphere's centre, in any direction, exactly the points closer than the radius are accepted |
| Triggers.PlaneAcceptsWithin | ArcDPS-Timer/trigger_region.cpp:69-86 | In coordinates along and across the base, exactly the points in the height band, beside the base and closer than thickness on either side are accepted |
| Triggers.MiddleIsCentre | ArcDPS-Timer/trigger_region.cpp:54-95 | The middle is as far from one side as from the other and from the bottom as from the top |
| Triggers.MiddleIsAccepted | ArcDPS-Timer/trigger_region.cpp:92-95 | A region's middle is accepted if and only if the region is not degenerate |
| Triggers.Region.Trigger | ArcDPS-Timer/trigger_region.cpp:17-27 | Fires exactly when armed and the player is inside, and then is armed no more |
| Triggers.TriggerWatcher.Watch | ArcDPS-Timer/trigger_region.cpp:104-114 | Fires the first armed region that contains the player and only that one, also when the list holds a region twice |
| Triggers.TriggerWatcher.Reset | ArcDPS-Timer/trigger_region.cpp:116-121 | Arms every region |
| Triggers.TriggerWatcher.Live | ArcDPS-Timer/mod.cpp:174-192 | Over any frames and resets the signals given are exactly those the path and the resets call for |
| Triggers.FiresAtMostOnce | ArcDPS-Timer/trigger_region.cpp:17-31 | Over any path no region fires twice between resets, and none triggered before |
| Triggers.SignalsSplitAtReset | ArcDPS-Timer/trigger_region.cpp:104-121 | Up to a reset the signals are those fired along the path walked, and from it on as if nothing had fired |
| Triggers.WatchMakesProgress | ArcDPS-Timer/trigger_region.cpp:104-114 | Each call fires one of the pending regions while there is one, and nothing otherwise |
| Triggers.InListOrderLists | ArcDPS-Timer/trigger_region.cpp:104-114 | The list order of pending regions lists each of them once and nothing else |
| Triggers.StandingFiresInOrder | ArcDPS-Timer/trigger_region.cpp:104-114 | A player who stands still fires the pending regions one per call in list order, then nothing |
| Ntp.OffsetErrorIsBounded | ArcDPS-Timer/ntp.cpp:93-96 | With non-negative delays and stamps floored to milliseconds the estimate misses the true offset by less than bias plus one millisecond |
| Ntp.MillisecondIsTight | ArcDPS-Timer/ntp.cpp:93-96 | The millisecond cannot be made smaller: every miss below it occurs with bias zero |
| Ntp.BiasBoundsErrorIff | ArcDPS-Timer/ntp.cpp:93-96 | The bias alone bounds the error if and only if neither way seems, on the stamps, faster than the true offset allows |
| Ntp.SlowEnoughNeedsNoSlack | ArcDPS-Timer/ntp.cpp:93-96 | The bias alone bounds the error whenever both ways take at least a millisecond |
| Ntp.SelectBest | ArcDPS-Timer/ntp.cpp:25-31 | The loop picks the first sample of least bias |
| Ntp.GetTimeDelta | ArcDPS-Timer/ntp.cpp:15-39 | The result is the offset of a usable sample of least bias, refused above ten seconds; no usable sample, no result |
| Ntp.TimeDeltaReads | ArcDPS-Timer/ntp.cpp:15-39 | No result exactly if every answer's offset is zero; otherwise the offset of a least-bias answer among the others, refused exactly above ten seconds, never for being negative |
| Ntp.LeastBiasIsTightest | ArcDPS-Timer/ntp.cpp:25-33 | The sample of least bias is within every sample's error bound |
| Ntp.TimeDeltaIsTightest | ArcDPS-Timer/ntp.cpp:15-39 | The offset the program returns, some requests perhaps failed, misses the true one by less than every usable answer's bias plus one millisecond |

## Left out

- Convergence under arbitrary delivery orders is false of the program; the smallest counterexample is `Delivery.LateStartDiverges` and the exact condition `Orders.AllOrdersAgreeIff`.
- Players.AllPlayersAgreeIff: says nothing of times; those are compared in `Replicas`, while no clock reorders anything. Events that share a uuid are of one kind, as copies and the segments of one region are.
- Delivery.LateDeliveryIsHarmlessIff: its condition speaks of the full history, which no player keeps; it is a step to `Delivery.AlwaysHarmlessIff`.
- The JSON text, including the time encoding, which differs between what a client writes (ArcDPS-Timer/eventstore.cpp:282) and what it reads (ArcDPS-Timer/eventstore.cpp:266): a message is an event, with the time and without the name the sender's encoding gives it, and every posted message carries a whole event.
- Integer width: times are unbounded ticks of 100 ns; only the largest time point appears, as a constant.
- Threads and mutexes: adding a local event, taking a server message and writing a line are one step each. Posting from detached threads means a client's own messages need not reach the server in order; `Convergence` covers all orders.
- SavedLogs.SortEvents: stands for the library sort; any sorted permutation is allowed for, and its insertion sort body only shows that one exists.
- EventStores.EventStore.EvaluateEntries: is, with SwitchOnStatus, FillSlot and EraseIrrelevant, a part of the one source function, split off so that each part has a contract; Record and DispatchCombatStart are split off their callers likewise.
- Triggers.TriggerWatcher.Watch: takes the player's position; that the game's second and third coordinates trade places (ArcDPS-Timer/trigger_region.cpp:105) is left to the caller.
- EventStores.EventStore.constructor: the program never initialises the timer state (ArcDPS-Timer/eventstore.h:129); that it starts out stopped rests on the store being a global object (ArcDPS-Timer/mod.cpp:39), whose storage is zeroed.
- EventStores.EventStore.Sync: the client registers the read handler that would call it but runs its `io_context` nowhere (ArcDPS-Timer/api.h:36, ArcDPS-Timer/api.cpp:134); the model has what the handler does when it runs.
- GroupAgreement.Api.Receive: belongs to the same handler, so in the program as it stands a client never learns of an error or a lost connection from reading.
- The clock: the current time is a parameter; the default times of a new table slot are overwritten at once and left at zero.
- RelayModel.StepQueues: whole messages only; a write that fails half way through a line counts as not written.
- RelayModel.StepKeepsInv: exceptions other than parse errors, which leave the server's loop and end it, are not modelled, nor are session destruction and the console output.
- GroupAgreement.Api.StartSync: the client connects once and only the outcome of the version exchange is an input; the reply `version` line stays in the channel until the server has read it, which allows more interleavings than happen.
- GroupAgreement.Api.ModImgui: which group is wanted (settings, map and group tables, the hash of the squad) is a parameter.
- Triggers.NormBelowIsNormBelow: floating point is replaced by exact reals and square roots by squares; a plane with equal sides, whose quotient is not a number, accepts nothing.
- Ntp.GetTimeDelta: sockets, retries and timeouts are left out, each request is its answer, a failed one the zero answer; reading the first of no samples, undefined in the program, is the result NoSample.
- Ntp.OffsetErrorIsBounded: the fraction of a server stamp is an exact second, not a 32-bit fraction.
- Removing and swapping trigger regions, reading and writing trigger and log files, and the second save of a log per map change in ArcDPS-Timer/mod.cpp:76-79.
- Boss kill recognition, whose damage totals never accumulate (ArcDPS-Timer/bosskill_recognition.cpp:17), map and group tables, windows, key binds, settings and translations: easy members or user interface.
