# Verified model of the Thingy53 dual-radio firmware

The firmware shares one radio core between Bluetooth and satellite transmission. This
project models, in Dafny, the parts of it that carry state, concurrency and arithmetic, and
proves what they guarantee.

| files | what they model |
|---|---|
| `SatPipeline.dfy`, `SatCall.dfy`, `SatResponses.dfy`, `SatPool.dfy`, `SatCores.dfy` | the satellite commands between the cores: `ipc_send` with its 3 s wait, the receive callback, `sat_tx_thread`, the response loop and the pool of 8 buffers |
| `PassSchedule.dfy`, `SatBoard.dfy` | the pass table, the scheduler and the transmission window of the ephemeris build |
| `PassPrediction.dfy` | the scheduler of the pass-prediction build, over any pass predictor |
| `TransmitLoop.dfy`, `MainLoop.dfy` | the endless loop of `main` over its timer and semaphore, in both builds, while the clock may be set; in the ephemeris build with its sessions |
| `ProvisioningWire.dfy`, `BleDevice.dfy`, `LittleEndian.dfy` | the companion script's encoder, the firmware's parser, and the two together |
| `RadioModes.dfy`, `RadioDevice.dfy` | who owns the radio: `main`, any number of user requests, `radio_mutex`, the boot mark |
| `ProvisioningGate.dfy` | what `main` waits for before `hubble_init` |
| `HciFraming.dfy` | the HCI receiver of the network core |
| `Machine.dfy` | fixed-width integers and runs of a step function |

## How concurrency is modelled

A concurrent part is a step function over atomic actions, each the stretch of one thread's
code between two kernel calls. A schedule is any sequence of actions; an action whose guard
does not hold leaves the state unchanged, because its thread is blocked. Thread priorities
are ignored, so every interleaving the kernel could produce is a schedule, and a theorem
about all schedules covers it. Histories (what was sent, processed, armed, booted) are part
of the state and are read by no step. The classes hold the imperative code; each method is
proved to be the step it stands for, and the `Interleave` methods carry the theorems over.

For claims that something can happen, ignoring priorities is a weakening: a schedule need
not be one the kernel produces. What the runs given here ask of the device:

- `SatPool.StuckIff`: `sat_tx_thread`, which is cooperative, is never interrupted between its
  kernel calls. Its first `hubble_sat_process` has to outlast the waits of the calls that
  time out, blocked in a way that lets the receive callback run.
- `SatCall.LagIsTight`: the network core takes up no message while calls time out, so it has
  to be kept busy for 3 s at a time.
- `SatCall.OkWhateverTheResult`: nothing; it is one call served in order.
- `RadioModes.GapBeforeMark`, `GapBeforeLock`, `GapBeforeReset` and `UncleanBoot`: a request
  has to run before `main` begins or between two adjacent statements of it, from a thread
  that preempts it or that the unlock of `radio_mutex` lets in first. The runs behind
  `CloseHarmsIff` need the failing `_sat_disable` and, when the user has switched Bluetooth
  off, one request at any later time; `FailingEnable` needs the failing `bt_enable`.
- `TransmitLoop.PredictionServesTwice`: a session shorter than the half second cut off the
  timeout, for instance one whose `_sat_enable` fails. `SetBackServesTwice`: a SETUTC write
  during the session, before Bluetooth is off. `ParksTooSoon`: nothing.

Zephyr objects have their plain meaning. `k_sem_give` hands the token to a waiting thread
directly and otherwise saturates at the limit 1; a timer fires no earlier than armed;
`nrf53_cpunet_enable` is an on/off switch (it is on for at most one stack in all runs that
satisfy the assumptions of `RadioExclusion`).

## What was found

- `SAT_CMD_OK` does not mean that a command succeeded, as its header says; it means that it
  was processed (`SatCall.OkWhateverTheResult`).
- Timeouts make later successes stale. The lag is exact (`SatCall.ExactLag`) and its bound
  is met (`SatCall.LagIsTight`). A session can wedge the network core for good exactly when
  its timeouts and leftover tokens make eight or more (`SatPool.StuckIff`,
  `SatPool.StuckForever`).
- When the scheduler returns -1 the main loop never transmits again, whatever is provisioned
  later (`TransmitLoop.ParkedForever`). In the prediction build that can happen with a pass
  still to come (`TransmitLoop.ParksIff`, `TransmitLoop.ParksTooSoon`).
- The prediction search loses a pass that lies inside another one under way; it is right
  exactly under the condition of `PassPrediction.SearchIsCorrectIff`. Its timeout is cut to
  whole seconds, so a session that ends before the pass begins is followed by a second one
  for the same pass (`PassPrediction.RearmedIff`, `TransmitLoop.PredictionServesTwice`).
- Bluetooth and a satellite session exclude each other (`RadioModes.RadioExclusion`) as long
  as no `bt_enable` does one of three things and `_sat_disable` succeeds. A user's must not
  find the mark 0, where it boots the satellite stack; a user's must not leave the core on
  between `ble_disable(false)` and the session's lock; and none, once `main` has booted, may
  fail and leave the core on. Both conditions are exact (`RadioModes.EnableHarmsIff`,
  `RadioModes.CloseHarmsIff`).
- A request that slips in before the session's lock is the last one served: `main` then waits
  without a timeout for an endpoint the Bluetooth stack does not have, and holds the mutex
  (`RadioModes.GapBlocksRadio`).
- The mark can be stale in two gaps, between a session's unlock and the reset and before
  `main` first writes it (`RadioModes.StaleMarkGaps`); a stale mark other than 0 still boots
  the Bluetooth stack.
- Setting the clock back makes the ephemeris build serve an entry again; it happens exactly
  when every scheduling since finds a second before the entry's start
  (`TransmitLoop.ArmedTwiceIff`, `TransmitLoop.SetBackServesTwice`).
- The boot's `bt_enable` takes no lock and can override a user's "off". It does so if and
  only if the flag is set and nobody is about to act on it (`RadioModes.BootBetraysIff`);
  it is not enough that no request has completed (`RadioModes.UncleanBoot`).
- `sat.h` promises that `sat_schedule_next_transmission` finds the earliest future pass. In
  the ephemeris build it does at every second exactly for the tables in which no entry comes
  after a later start unless its own start, when not second 0, was listed before that one too
  (`PassSchedule.EarliestIff`); sorted tables, like the script's, are such
  (`PassSchedule.SortedIsInTurn`), and a late entry for an early pass is missed
  (`PassSchedule.LateEntryIsMissed`).
- The README of the firmware gives the wait for the endpoint to bind a 3-second timeout; the
  code waits forever (app/src/main.c:132). `sat.h` restricts `sat_next_transmission_get` to
  the prediction build; the code provides it in both. The model follows the code.

## Model

| member | source | states |
|---|---|---|
| SatPipeline.InvRun | app/cpunet/src/main.c:372-487 | over every interleaving: free, queued and held buffers make 8; accepted commands are the processed ones followed by those on their way, in order; each processed command has exactly one SAT_CMD_OK; semaphore tokens are conserved |
| SatCall.RefinesStep | app/src/main.c:76-85 | with no leftover token and no timeout every step of either core is the call of the accepted message, its execution or its return in a synchronous remote call, or is not visible |
| SatCall.SynchronousCall | app/src/main.c:65-85 | the same along every schedule from the start of a session, and outside a call exactly the accepted commands are processed |
| SatCall.FifoOrder | app/cpunet/src/main.c:384-396 | processed commands are a prefix of the accepted ones; every response is SAT_CMD_OK and belongs to a processed command |
| SatCall.ExactLag | app/src/main.c:39-85 | outside a call the lag equals timeouts plus initial token minus waiting token, answers under way, dropped answers and saturated gives |
| SatCall.BoundedLag | app/src/main.c:71-84 | after n commands and k timeouts at least n - k - token are processed, also when responses are dropped or gives saturate |
| SatCall.LagIsTight | app/src/main.c:84 | for every k and every number of later successful calls an interleaving meets the bound |
| SatCall.OkWhateverTheResult | app/cpunet/src/main.c:377-396 | ipc_send can return 0 for every message and every result of hubble_sat_process; unknown commands give -EINVAL |
| SatResponses.SentIsAccepted | app/src/main.c:76-82 | from any state the messages sent are those of the calls that the transport took |
| SatResponses.RefusedCallsVanish | app/src/main.c:78-82 | leaving out every ipc_send that the transport refuses changes no run |
| SatResponses.AnswersInOrder | app/cpunet/src/main.c:394-487 | from any state responses are sent in the order sat_tx_thread put them, one SAT_CMD_OK for each |
| SatResponses.TakenOrReceived | app/cpunet/src/main.c:482-485 | responses taken by the transport reach the application in order, none lost or added |
| SatResponses.AnsweredOrDropped | app/cpunet/src/main.c:484-485 | over every run the dropped responses are exactly those that the transport refused |
| SatResponses.TokensAreOks | app/src/main.c:65-74 | from any state a token comes of every SAT_CMD_OK received and of no other message |
| SatResponses.LostResponsesTimeOut | app/src/main.c:84 | while the transport takes no response, no more calls return 0 than tokens were left over, and the others time out or are open |
| SatResponses.LostResponse | app/cpunet/src/main.c:484-485 | a waiting call whose response is refused is processed and stays waiting without a token |
| SatPool.StuckShape | app/cpunet/src/main.c:392-396 | the pipeline is stuck exactly when eight requests fill the pool, sat_tx_thread waits for a response buffer, and the callback cannot go on |
| SatPool.NoDeadlock | app/cpunet/src/main.c:34-47 | with at most 8 unanswered commands the pipeline is never stuck |
| SatPool.Drains | app/cpunet/src/main.c:372-487 | with at most 8 unanswered commands the pipeline, left to itself, takes a fixed number of steps in whatever order and ends with every command processed and answered and every buffer free |
| SatPool.UnansweredBound | app/src/main.c:76-85 | unanswered commands are at most timeouts plus initial token plus the call in progress |
| SatPool.FewTimeoutsNeverStuck | app/src/main.c:84 | a session with fewer than 8 timeouts and leftover tokens is never stuck |
| SatPool.FewTimeoutsAllProcessed | app/src/main.c:84 | in such a session every accepted command is processed and answered when the network core comes to rest |
| SatPool.StuckIff | app/cpunet/src/main.c:384-438 | for every number of timeouts: some session with that many gets stuck if and only if with the leftover tokens they make 8 or more |
| SatPool.NinthCommandJams | app/cpunet/src/main.c:392-438 | with 8 of them the run that gets stuck has nine unanswered commands; the callback gets the buffer sat_tx_thread releases |
| SatPool.StuckForever | app/cpunet/src/main.c:394 | from a stuck state nothing more is processed or answered, whatever is sent |
| SatCores.Cores.InOnePlace | app/cpunet/src/main.c:34-47 | each of the eight buffers is in exactly one place: free, in a queue or held by one context |
| SatCores.Cores.NetEpRecvAlloc | app/cpunet/src/main.c:434-436 | the message is written into a free buffer without touching one that is queued or held; with none free the callback waits |
| SatCores.Cores.SatTxProcess | app/cpunet/src/main.c:384-390 | what is processed is the message received, read from the buffer it was written to |
| SatCores.Cores.Unref | app/cpunet/src/main.c:392 | a released buffer may hold anything from then on: no queued message and no other context's message depends on it |
| SatCores.Cores.SatTxPut | app/cpunet/src/main.c:394-396 | the buffer that enters rx_queue still holds the SAT_CMD_OK written to it |
| SatCores.Cores.ResponseSend | app/cpunet/src/main.c:482-485 | the bytes sent are those queued as response; refused, they are lost and counted as dropped |
| SatCores.Cores.Interleave | app/cpunet/src/main.c:372-487 | any interleaving of the code over real buffers, with released ones overwritten at will, is a run of the pipeline and keeps its invariant |
| PassSchedule.FirstFuture | app/src/sat_board.c:310-320 | the first entry from the cursor on whose start second is after the current one |
| PassSchedule.AppendAll | app/src/sat_board.c:277-284 | appended passes are kept in order until 300 are stored |
| PassSchedule.AppendsKeepChoice | app/src/sat_board.c:310-322 | appending never changes a choice already made |
| PassSchedule.CursorIsRedundant | app/src/sat_board.c:314-316 | searching the whole table would make the same choice |
| PassSchedule.EarliestIff | app/src/sat.h:26-35 | for every table: the choice is the earliest pass to come at every second if and only if every entry is in turn |
| PassSchedule.LateEntryIsMissed | app/src/sat_board.c:314-320 | a table and a second at which the choice is not the earliest |
| PassSchedule.SortedIsInTurn | app/src/sat.h:26-35 | in a sorted table every entry is in turn |
| PassSchedule.EphemerisArming | app/src/sat_board.c:322-325 | the timeout does not wrap and the timer fires in the second in which the pass starts |
| EphemerisBoard.SatBoard.PassAdd | app/src/sat_board.c:274-288 | appends one entry, or refuses with -ENOSPC when 300 are stored |
| EphemerisBoard.SatBoard.Search | app/src/sat_board.c:310-320 | the cursor moves to the first future entry as if the search were atomic on the table it leaves behind, with appends during the search |
| EphemerisBoard.SatBoard.ScheduleNext | app/src/sat_board.c:290-328 | result, cursor and timeout; no timer is started when no pass is to come |
| EphemerisBoard.SatBoard.TransmissionTimeGet | app/src/sat_board.c:167-174 | the duration under the cursor, or -1 past the end |
| EphemerisBoard.SatBoard.NextTransmissionGet | app/src/sat_board.c:330-351 | the start times from the cursor on, as many as fit, and nothing else written |
| EphemerisBoard.SatBoard.Window | app/src/sat_board.c:246-253 | the first send begins at the first clock read, each other when the iteration before it is over, none after the end of the window; the loop ends past it or with the first failed send, at a known time |
| EphemerisBoard.SatBoard.Transmit | app/src/sat_board.c:237-265 | the same times with the window of the entry under the cursor, or of -1 s past the table; at least one and at most D / interval + 1 sends; the transmitting flag is cleared exactly on success |
| TransmitWindow.SendsBound | app/src/sat_board.c:32-34 | the bound on sends in a window, for every interval including 0 |
| TransmitWindow.SendsExact | app/src/sat_board.c:246-253 | exactly that many when every iteration lasts the interval |
| PassPrediction.SearchIsCorrectIff | app/src/sat_board.c:298-306 | with any predictor that answers with a first pass ending later, the search finds the next pass to come, or that there is none, if and only if no pass is to come or a first one outlasts everything already started |
| PassPrediction.NothingPlannedIff | app/src/sat_board.c:302-304 | the search gives up if and only if every pass is over, or ends no later than one that has started |
| PassPrediction.NonOverlappingIsCorrect | app/src/sat_board.c:298-306 | on a timeline without overlaps it is always right, with any predictor |
| PassPrediction.NestedPassIsLost | app/src/sat_board.c:305 | a concrete timeline on which it is wrong, with any predictor |
| PassPrediction.EveryTimelineHasAPredictor | app/src/sat_board.c:302 | the specification of the predictor can be met for every timeline |
| PassPrediction.LaterEndsFewer | app/src/sat_board.c:301-306 | with every turn fewer passes are left to consider |
| PassPrediction.RearmedIff | app/src/sat_board.c:301-308 | scheduled again, the start armed is strictly later exactly when the first had been reached, and the same otherwise |
| PassPrediction.PredictionArming | app/src/sat_board.c:308-325 | the timer fires less than a second before the start and not after it, exactly when the timeout fits 32 bits |
| PredictionBoard.SatBoard.ScheduleNext | app/src/sat_board.c:290-328 | asking any predictor, the loop terminates with its answer for the end of the last pass already started, or -1; then no timer is started, and what is left in next_pass is the old pass or one under way or over |
| TransmitLoop.OneSessionPerArming | app/src/main.c:240-250 | in both builds and however the clock is set timer and semaphore hold at most one wake-up, none is lost, armings and sessions match one to one, and no session begins before its timer was due |
| TransmitLoop.ClocksShow | app/src/ble.c:166-168 | over every run the clock shows what it was last set to, forward or back, plus the time since, and the uptime all time passed |
| TransmitLoop.ParkedForever | app/src/main.c:241-250 | once the scheduler found nothing, no session ever follows |
| TransmitLoop.ParksIff | app/src/sat_board.c:302-319 | the loop parks exactly when no entry from the cursor on is to come, or in the prediction build when every pass is over or ends no later than one that has started |
| TransmitLoop.ParksTooSoon | app/src/sat_board.c:302-306 | the prediction build parks for good with a pass still to come, with any predictor |
| TransmitLoop.CursorMoves | app/src/sat_board.c:314-325 | unless the clock was set back, at the next scheduling the entry just served is no longer in the future |
| TransmitLoop.ArmedTwiceIff | app/src/sat_board.c:310-325 | over every run, however the clock is set: indices never go back, and two armings have the same entry if and only if every scheduling after the first found a second before its start |
| TransmitLoop.SetBackServesTwice | app/src/ble.c:166-167 | a run that serves an entry twice after a SETUTC |
| TransmitLoop.GreedyRun | app/src/sat_board.c:310-325 | over every run in which the clock is not set back each armed entry is the first future one of the whole table, indices grow strictly, and in session the cursor is at the armed entry |
| TransmitLoop.MissedOnlyIfStarted | app/src/sat_board.c:314-320 | in such a run an entry is passed over only when its start second had been reached, for one that starts later |
| TransmitLoop.EarliestFirst | app/src/sat.h:26-35 | in such a run every armed pass is the earliest still to come, when the entries of the table are in turn |
| TransmitLoop.EarliestFirstNeeds | app/src/sat.h:26-35 | when they are not, some clock makes the first arming miss an earlier pass |
| TransmitLoop.PredictionOrder | app/src/sat_board.c:292-308 | over every run of the prediction build the arming with the later clock never starts earlier, and starts strictly later exactly when that clock had reached the other's start |
| TransmitLoop.ArmedInOrder | app/src/main.c:240-250 | while the clock is not set back the clock of an arming has reached the time at which the timer of each earlier one was due |
| TransmitLoop.PredictionServesTwice | app/src/sat_board.c:308-325 | a run that serves one pass twice |
| MainLoop.Loop.ScheduleAndWait | app/src/main.c:241-250 | the scheduler over the real table, with passes arriving while it searches, is the step of the loop on the table with those passes; its result is ignored |
| MainLoop.Loop.RunSession | app/src/main.c:254-267 | a session sends only in the window opened after its timer was due, for the duration of the armed pass, as often as fits, and at least once when it is ready to; send times and the uptime at its end follow from its iterations |
| MainLoop.Loop.Interleave | app/src/main.c:240-270 | any run of the loop, with passes arriving and the clock set at any moment and sessions that take time, send or fail: each armed entry is the first future one from the entry before, the k-th finished session answers the k-th arming, and by the clock the timer was armed on no send comes before the start of that pass nor later than start second, delay and duration allow |
| LittleEndian.DecodeEncode | scripts/companion.py:77-81 | to_bytes followed by the firmware's read is the identity |
| LittleEndian.Digits | app/src/ble.c:188-190 | the least significant byte comes first |
| ProvisioningWire.EntryLayout | app/src/ble.c:187-190 | an entry byte by byte |
| ProvisioningWire.WriteDelivers | app/src/ble.c:171-198 | for any announced count, any entries and any bytes short of one more: the first entries, as many as announced and present, are appended as far as there is room |
| ProvisioningWire.BatchCount | scripts/companion.py:70-86 | a list takes one write for every 20 entries |
| ProvisioningWire.CutBatchDelivers | app/src/ble.c:173-197 | a batch cut off anywhere delivers its whole entries, in order, as far as there is room |
| ProvisioningWire.RoundTrip | scripts/companion.py:67-86 | all batches of a list, parsed one by one, append the list to any table |
| ProvisioningWire.RoundTripFromEmpty | app/src/ble.c:171-198 | from an empty table the first 300 entries remain, in order |
| Companion.Script.GenerateUtcTimestamps | scripts/companion.py:35-44 | appends count entries at the given interval |
| Companion.EncodableIff | scripts/companion.py:77-81 | an entry is accepted exactly when four and two bytes can hold its fields |
| Companion.Script.BuildBatch | scripts/companion.py:75-81 | a batch is encoded, or fails exactly when a field is out of range |
| Companion.Script.WriteBatches | scripts/companion.py:67-86 | the writes are the batches of the whole list, or the whole batches before the stop or the overflow |
| Companion.Script.Scan | scripts/companion.py:66-98 | a finished session writes all batches, then the time, then the location |
| Companion.GeneratedIsSorted | scripts/companion.py:41-44 | what the script generates arrives as a sorted table |
| BleDevice.BootUtc | app/src/ble.c:166-168 | utc_time plus uptime is the time written; it is 0 exactly when the two are equal |
| BleDevice.Device.ChrWrite | app/src/ble.c:147-222 | result and effect of every write, in both builds, for every length |
| BleDevice.Device.ParseEphemeris | app/src/ble.c:173-198 | the entry loop delivers what WriteDelivers says, and earlier entries are kept |
| BleDevice.Provision | scripts/companion.py:66-98 | script and firmware end to end, in both builds: the table gains the script's list or, with pass prediction, is left alone and the location arrives; the clock gains its time; an interrupted session leaves whole batches |
| RadioModes.SessionFreezesBluetooth | app/src/main.c:254-268 | while main holds the mutex for a session no step changes Bluetooth or the user's choice |
| RadioModes.AdvertisesUnlessOff | app/src/ble.c:224-259 | in every considerate run in which calls succeed, while main waits for its timer and the mutex is free, Bluetooth is on over its own stack unless the user has switched it off, and only then if the boot was clean |
| RadioModes.UndisturbedRun | app/src/main.c:240-270 | from any start and after any number of undisturbed cycles Bluetooth is back on when main waits for its timer |
| RadioModes.CycleWhileOff | app/src/ble.c:230-232 | with Bluetooth switched off the same cycle transmits and leaves it off |
| RadioModes.RequestWaits | app/src/ble.c:228-238 | a request made during a session is served once main has let the mutex go |
| RadioModes.StartsOverOwnStack | app/cpunet/src/main.c:457-487 | whatever the mark and the outcome, Bluetooth never starts over the satellite stack |
| RadioModes.RadioExclusion | app/src/main.c:247-269 | without a harmful bt_enable and with _sat_disable succeeding: no overlap, each over its own stack, bt_enable never meets the satellite stack and only a user's, at mark 0, can boot it |
| RadioModes.EnableHarmsIff | app/src/ble.c:224-259 | any call of bt_enable, by main or a user, whatever it returns, starts or meets the satellite stack or leads to a violation if and only if it is harmful |
| RadioModes.FailingEnable | app/src/ble.c:238-242 | a run in which a failing bt_enable of main that leaves the core on leads to a session over the Bluetooth stack |
| RadioModes.CloseHarmsIff | app/src/main.c:137-156 | after a session, bt_enable can come to be called over the satellite stack if and only if _sat_disable failed |
| RadioModes.FailedCloseMisleads | app/src/main.c:137-156 | after a failed _sat_disable the next bt_enable, by main or by a user, meets the satellite stack in every run |
| RadioModes.FailingClose | app/src/main.c:137-156 | a considerate run to the end of a session, where a failing _sat_disable has that consequence |
| RadioModes.StaleMarkGaps | app/src/main.c:208-269 | over every run the mark is not 1 only before main's first write, under main's lock, and until the reset |
| RadioModes.BootReadsWrongIff | app/cpunet/src/main.c:457 | over every run a boot reads another mark than meant if and only if a user's bt_enable boots while the mark is not 1 |
| RadioModes.GapBeforeMark | app/src/main.c:198-208 | before main writes the mark, a user's bt_enable boots the satellite stack exactly when the word there is 0 |
| RadioModes.GapBeforeLock | app/src/main.c:252-254 | a run with Bluetooth on during a session |
| RadioModes.BlockedForever | app/src/main.c:132 | once main waits for the endpoint over another stack it never goes on, and no request gets past radio_mutex |
| RadioModes.GapBlocksRadio | app/src/main.c:132-254 | after the run of GapBeforeLock that is so for good |
| RadioModes.GapBeforeReset | app/src/main.c:268-269 | after a session, before the mark is reset, it does exactly when the word left there is 0 |
| RadioModes.FailedOpenRecovers | app/src/main.c:118-130 | an endpoint that cannot be opened, or a failing first command, leads past sat_transmit to _sat_disable, the reset of the mark and the next cycle |
| RadioModes.TransmissionEnds | app/src/main.c:261-269 | so does sat_transmit, whatever it returns |
| RadioModes.SessionOrder | app/src/main.c:254-268 | main transmits only over an open, bound endpoint, and leaves a session only by _sat_disable |
| RadioModes.FailedBoot | app/src/main.c:210-233 | a failing ble_init turns Bluetooth off and ends main; a failing hubble_init ends it with Bluetooth on |
| RadioModes.BootFindsBluetooth | app/src/main.c:210-214 | a user who turned Bluetooth on first makes the boot's bt_enable fail, and main ends |
| RadioModes.UserOffPersists | app/src/ble.c:228-274 | with the mutex free, Bluetooth switched off by the user is off, unless the boot overrode it |
| RadioModes.BootBetraysIff | app/src/main.c:210 | the boot overrides the user if and only if the flag is set and its owner is not about to act on it |
| RadioModes.UncleanBoot | app/src/main.c:208-210 | a run in which it does, while the request still holds the mutex |
| RadioDevice.Radio.Interleave | app/src/main.c:198-275 | any interleaving of the code of main and of user requests is a run of that model, and a considerate one keeps its invariant |
| RadioDevice.UserSection | app/src/ble.c:224-274 | the steps of a user's request from lock to unlock are the critical section of the code |
| RadioDevice.MainSections | app/src/main.c:247-252 | the same for main's own calls |
| RadioDevice.SessionOpens | app/src/main.c:105-135 | the steps of main that open a session over the satellite stack are _sat_enable as a whole |
| ProvisioningGate.GateOpensIff | app/src/main.c:221-226 | told from the schedule alone: hubble_init is reached only after a disconnect whose last SETUTC differs from the uptime and a key found, or accepted with the right length; a waiting main goes on exactly then |
| ProvisioningGate.GateOpens | app/src/ble.c:166-168 | the usual course opens the gate, with utc_time the time written less the uptime |
| ProvisioningGate.TimeIsRemembered | app/src/ble.c:124-131 | init_sem holds a token exactly from a qualifying disconnect until it is taken |
| ProvisioningGate.KeyIsRemembered | app/src/main.c:158-206 | the same for key_sem and keys |
| HciFraming.Receiver.PacketRecv | app/cpunet/src/main.c:70-179 | a frame is accepted exactly when header, length and room fit; every buffer obtained is returned or released |
| HciFraming.Receiver.HciIpcRx | app/cpunet/src/main.c:181-219 | exactly the accepted frames are queued, and buffers stay balanced |
| HciFraming.Receiver.TxTurn | app/cpunet/src/main.c:228-234 | the oldest buffer goes to the stack, or is released when refused |
| HciFraming.EncodedIsQueued | app/cpunet/src/main.c:102-215 | a well-formed packet that fits is queued byte for byte and reads back as itself |
| HciFraming.AcceptedReencodes | app/cpunet/src/main.c:89-178 | an accepted frame is a well-formed packet and encodes to itself |
| HciFraming.PacketLayouts | app/cpunet/src/main.c:61-68 | one packet of each kind byte by byte |
| HciFraming.QueuesExactlyPackets | app/cpunet/src/main.c:181-219 | given a buffer, what is queued is exactly the encodings of well-formed packets that fit |

## Left out

- The satellite SDK and the radio driver: a packet send is any result and any duration, the
  pass predictor any function that answers from a finite list of passes, the uptime any
  nondecreasing one, and the clock runs with it between SETUTC writes.
- Mailbox, icmsg, flash and base64: a transport either accepts a message, and then delivers
  it in order, or refuses it; `ipc_send` refused by the transport changes nothing.
- TransmitLoop.PredictionOrder: the timeline is the same throughout the run; a new location
  or new orbital parameters between two cycles are not modelled.
- PassPrediction.Predictor: the predictor gives the same answer whenever it is asked for the
  same time; times are unbounded, so a start plus duration beyond 64 bits does not wrap; a
  failing predictor leaves the pass it was asked to fill unchanged.
- EphemerisBoard.SatBoard.Transmit: the interval stays the same during one window; every
  iteration advances the clock by at least a millisecond, which only matters for interval 0.
- MainLoop.Loop.Interleave: the interval stays the same during the run.
- BleDevice.Provision: each write arrives whole; fragments of prepared writes, which the
  callback answers with 0, are not put together.
- Companion.Script.Scan: a Bluetooth error while writing is not modelled; it would end the
  session after the writes already made, like a stop.
- RadioModes.RadioExclusion: `bt_disable` always succeeds, and the network core's switch does
  not count its users.
- Advertising contents and timers, payload assembly, sensors, LED, button GPIO, shell parsing
  and printing: input and output, or too simple. Button and shell appear as user requests.
- The retry loop of the HCI sender and the fatal-error handlers of the network core: they
  keep no state, or never return.
