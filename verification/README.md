# LoRaHAM daemon: a verified model

Dafny models of the daemon's hardest state machines, and proofs about all their runs. The model
takes the source's form: what the source updates in place is a class with those fields (or an
array), whose methods are proved against a function on values; the results are lemmas about those
functions, over every input, every run and every interleaving. Hardware, sockets, the bus and the
clock are adversaries: every answer they give is an arbitrary function of the call.

| part | modules |
|---|---|
| Meshstick selection | `Ch341Select`, `Ch341SelectSafety`, `Ch341SelectProgress`, `Ch341SelectQuiet`, `Ch341SelectStart`, `Ch341SelectOpens`, `Ch341SelectTiming`, `Ch341SelectReturns`, `Ch341Selector`, `Ch341Runtime` |
| Unplug-wait and the HAL latch | `UsbWait`, `UsbWaitSafety`, `UsbWaitProgress`, `UsbWaitReturn`, `UsbWaiter`, `Ch341Hal` |
| Bus monitor | `Ch341Monitor`, `Ch341MonitorCookies`, `Ch341BusMonitor` |
| CONF pipeline and replay | `ConfigStream`, `ConfigParser`, `ConfigGrammar`, `ConfigValidate`, `ConfigValues`, `ConfigPolicy`, `ConfigReplay`, `ConfigApply`, `ConfigOutcome`, `ConfigApplyReplay`, `ConfigPipeline` |
| Framed DATA | `FramedData`, `FramedDataTx`, `FramedRuntime`, `FramedEndToEnd` |
| Clients | `ClientOutputQueue`, `ClientSlot` |
| TX | `TxJob`, `Ring`, `TxQueue`, `TxCompletion`, `TxAsync`, `ListenBeforeTalk`, `DataTx` |
| epoll | `EpollReconcile`, `EpollInPlace` |

`dafny verify dfyconfig.toml` checks everything, within Dafny's default time limit.

## What was found

- With `TXRESULT=0` and the queue on, an accepted framed packet is still answered: the completion
  target is set regardless, so its TX_RESULT is delivered with sequence number 0.
  docs/data-protocol.md says TX_RESULT is emitted only when enabled. The model follows the code:
  `FramedRuntime.UnaskedResultArrives` is an example, `FramedRuntime.ResultsOffStillAnswers` the exact
  condition.
- docs/data-protocol.md gives flag 0x04 to a MANAGED send after a CAD timeout. On the direct path
  (`TXQUEUE=0`) the immediate result carries only the managed flag, so 0x04 is never set there:
  `FramedRuntime.TimeoutFlagMissing` is an example, `FramedRuntime.TimeoutFlagOnlyLater` the exact
  condition.
- The parser state beside a framed slot survives a close outside the framed pass. Accept runs before
  the pass, so a new connection can be parsed behind half a frame of the old one
  (`FramedRuntime.StaleStateReachable`); it is parsed as its own stream exactly when the state is at
  rest (`FramedDataTx.FreshStreamNeedsRest`).
- The USB monitor's descriptors are keyed by their number. One closed and reopened between two
  epochs keeps its key, is taken for registered and is not in the kernel's set
  (`EpollReconcile.ReusedKeyIsLost`); the exact condition is `EpollReconcile.OpeningKeepsExactly`.
  Whether libusb ever does so is not shown: what a scan step opens it closes within the same call.
- After a hardware error in the middle of a command the record can hold a configuration the airtime
  gate refuses, so the replay after a replug fails (`ConfigApplyReplay.HardwareErrorCanBlockReplay`);
  it succeeds exactly when the shadow is within the limit (`ConfigApplyReplay.ReplayRefines`).
- docs/conf-protocol.md takes `LDRO=AUTO` and `LDRO=auto` only; the code lowers the value first and
  takes any mix of cases (`ConfigValues.LdroTakesAnyCase`; the exact condition is the LDRO line of
  `ConfigValues.ValuesAsDocumented`).
- With a CAD wait of 0 ticks the two listen-before-talk loops differ
  (`ListenBeforeTalk.ZeroWaitParts`); no value a client can set gives 0.

## Assumptions

- The monotonic clock reads at least 1 ms: the source uses 0 as "no time".
- The change counter of the selection has 32 bits and is compared for equality; results that conclude
  "no change" say so for fewer than 2^32 changes in between.
- usleep sleeps until its time. Locks make their blocks atomic; the main loop is one thread.
- Driver setters are independent: the driver is a map from key to value, reset by a mode switch and
  suspect after a failed call. Airtime is computed in exact reals. Reading a number from text is an
  arbitrary partial function.
- In `Ch341SelectOpens`, `Ch341SelectReturns` and `UsbWaitReturn` pine64 takes a stick whenever there is one to take: openable, not held
  already, with the serial if it is asked for one; and its identity is read as it is. Every other
  result about the selection leaves pine64 free to answer as it likes.
- The kernel accepts at most the bytes given to send, and drops a descriptor from epoll when it is
  closed. A device object's address is reused only after its last reference is gone.
- In the quiet-bus results the sticks of a scan have distinct cookies, which
  `Ch341MonitorCookies.ScanCookiesDistinct` gives.

## Model

| member | source | states |
|---|---|---|
| `Ch341SelectSafety.NoStaleCommit` | loraham_daemon/daemon_ch341_select.cpp:424-505 | In every run of steps and bus events, OPENED means that no ARRIVED or LEFT was taken since the deciding snapshot began, the one exception being a Rule B walk on the final snapshot after the cap |
| `Ch341SelectSafety.NoLostWakeUp` | loraham_daemon/daemon_ch341_select.cpp:162-219 | A WAIT without a retry time has forgotten no change: whatever the bus does next is still to be taken |
| `Ch341SelectSafety.NoStaleRefusal` | loraham_daemon/daemon_ch341_select.cpp:200-219 | REFUSED happens only at the start, on a snapshot no change has overtaken or on the final one |
| `Ch341SelectSafety.NoLeakedHandle` | loraham_daemon/daemon_ch341_select.cpp:450-728 | After WAIT or REFUSED no handle is open and nothing is bound; OPENED hands out exactly one, bound; a walk holds exactly the sticks it opened, at most one per stick of its snapshot |
| `Ch341SelectSafety.OneIdentityForLife` | loraham_daemon/daemon_ch341_select.cpp:380-437 | Over any run all sticks ever handed out are one stick: the same 8-character serial, or the same port without one; with --usb-serial, that one |
| `Ch341SelectSafety.StepKeepsInv` | loraham_daemon/daemon_ch341_select.cpp:621-728 | Every step, whatever the bus does inside it, keeps the invariant behind these results: ownership of handles, attempts within the snapshot, identity of every stick handed out |
| `Ch341SelectSafety.TakeEventsCounts` | loraham_daemon/daemon_ch341_runtime.cpp:62-69 | Every ARRIVED and every LEFT taken counts as exactly one change, and none is ever un-counted |
| `Ch341SelectSafety.WalkOpensWithoutSerial` | loraham_daemon/daemon_ch341_select.cpp:402-405 | A Rule B walk hands out no stick with a serial, whatever it read before |
| `Ch341SelectSafety.SameSerial` | loraham_daemon/daemon_ch341_select.cpp:180-183 | Serials are compared on exactly their first eight characters |
| `Ch341SelectSafety.FreshAndCancelled` | loraham_daemon/daemon_ch341_select.cpp:66-150 | A fresh selection looks for the selector, or any stick without one, and remembers nothing; a shutdown leaves nothing open or waited for |
| `Ch341SelectProgress.DecisionRules` | loraham_daemon/daemon_ch341_select.cpp:509-617 | A finished scan leads to a plain open if and only if the rule for it holds (by serial: exactly one match and no unknown stick beside it; otherwise exactly one attached stick that can be opened); a walk starts only under Rule B, and under Rule B it starts or waits for its gap |
| `Ch341SelectProgress.TallyCounts` | loraham_daemon/daemon_ch341_select.cpp:509-603 | The single pass over the snapshot counts each class of stick |
| `Ch341SelectQuiet.DeadlinesNeverMove` | loraham_daemon/daemon_ch341_select.cpp:621-728 | No step moves an access deadline it keeps; every new one is 2000 ms after the observation that made it |
| `Ch341SelectQuiet.UnresolvedKeepsItsDeadline` | loraham_daemon/daemon_ch341_select.cpp:643-664 | An item ends a deadline only when this very step's scan of that connection answered that it is no longer unresolved |
| `Ch341SelectQuiet.WaitingDecisionKeeps` | loraham_daemon/daemon_ch341_select.cpp:606-617 | A decision that keeps waiting keeps the deadline of every connection its scan reported unresolved |
| `Ch341SelectQuiet.FirstObservation` | loraham_daemon/daemon_ch341_select.cpp:648-660 | The first unresolved observation of a connection starts its 2000 ms |
| `Ch341SelectQuiet.DeadlineFixedOverRuns` | loraham_daemon/daemon_ch341_select.cpp:606-664 | Over any run whose scans go on reporting a connection unresolved and whose decisions go on waiting, its deadline stays, and stays that of the first observation |
| `Ch341SelectStart.TurnProgress` | loraham_daemon/daemon_ch341_runtime.cpp:303-327 | On a quiet bus each turn of the start loop concludes or lowers the measure (stage, target time minus clock, steps left in the phase) |
| `Ch341SelectStart.StartEndsOnQuietBus` | loraham_daemon/daemon_ch341_runtime.cpp:303-327 | From any reachable state, once the bus sends no more events and scans report the same sticks, the start loop reaches OPENED or REFUSED |
| `Ch341SelectOpens.StartHandsOutTheChosen` | loraham_daemon/daemon_ch341_select.cpp:367-728 | On a quiet bus with a pine64 that takes a stick whenever there is one to take: the start loop ends OPENED if and only if one stick can be chosen (by serial the only one with it, else the only attached one or the only one without a serial, and acceptable to the remembered identity), hands out that one, and is REFUSED otherwise |
| `Ch341SelectOpens.UnresolvedIsAwaited` | loraham_daemon/daemon_ch341_select.cpp:509-603 | A stick that cannot be opened or told yet is waited for until its deadline, unless the choice is hopeless already |
| `Ch341SelectOpens.OpenedHanded` | loraham_daemon/daemon_ch341_select.cpp:367-505 | Without a change an opened stick is handed out exactly when the remembered identity accepts it, at the start as on a reopen |
| `Ch341SelectTiming.OpenRetried` | loraham_daemon/daemon_ch341_select.cpp:225-258 | On a reopen a stick pine64 cannot open is tried again after 200 ms |
| `Ch341SelectTiming.ListRetried` | loraham_daemon/daemon_ch341_select.cpp:621-632 | On a reopen an unreadable device list is tried again after 200 ms |
| `Ch341SelectTiming.ListRefusedAtStart` | loraham_daemon/daemon_ch341_select.cpp:621-632 | At the start it is a refusal: the failed read has seen the changes so far |
| `Ch341SelectTiming.ReadRetried` | loraham_daemon/daemon_ch341_select.cpp:450-475 | On a reopen an unreadable identity is tried again after 200 ms |
| `Ch341SelectTiming.BindRetried` | loraham_daemon/daemon_ch341_select.cpp:475-486 | On a reopen a bind that fails is tried again after 200 ms |
| `Ch341SelectTiming.WalkRetried` | loraham_daemon/daemon_ch341_select.cpp:682-712 | A walk that finds nothing to take, or has tried as often as there are sticks, ends and is tried again after 1000 ms |
| `Ch341SelectTiming.AccessRetried` | loraham_daemon/daemon_ch341_select.cpp:292-307 | An unresolved stick is looked at again after 200 ms or at its deadline, whichever is sooner, and only as long as that has not run out |
| `Ch341SelectTiming.AccessOvertaken` | loraham_daemon/daemon_ch341_select.cpp:292-299 | A change since the snapshot comes first: classified again at once, deadlines kept |
| `Ch341SelectTiming.DeadlinesEnd` | loraham_daemon/daemon_ch341_select.cpp:606-617 | No deadline outlives an expiry, an open or a decision that does not wait on it |
| `Ch341SelectTiming.ChangeClassifiesAgain` | loraham_daemon/daemon_ch341_select.cpp:317-330 | An open or a walk overtaken by a change is given up and classified again at once; the next snapshot is final exactly when the 2000 ms cap has passed |
| `Ch341SelectTiming.NextIsFinal` | loraham_daemon/daemon_ch341_select.cpp:630-640 | The final snapshot is the next one and no other |
| `Ch341SelectTiming.WindowClassifiesAgain` | loraham_daemon/daemon_ch341_select.cpp:439-505 | A change delivered while a stick is opened, read or bound is seen before anything is committed |
| `Ch341SelectTiming.FailedOpenClassifiesAgain` | loraham_daemon/daemon_ch341_select.cpp:666-681 | A change delivered while no stick could be opened comes before BUSY |
| `Ch341SelectTiming.LeftWhileBinding` | loraham_daemon/daemon_ch341_select.cpp:487-500 | The bound stick leaving while it is bound unbinds and closes it again |
| `Ch341SelectTiming.RefusalWaits` | loraham_daemon/daemon_ch341_select.cpp:200-219 | On a reopen a refusal waits for the next change, or 500 ms when the final snapshot is overtaken |
| `Ch341SelectTiming.BurstTimed` | loraham_daemon/daemon_ch341_select.cpp:150-160 | A burst is timed by its first and last ARRIVED, the cap by the first change |
| `Ch341SelectTiming.WalkStartsWhenDue` | loraham_daemon/daemon_ch341_select.cpp:575-603 | A walk starts exactly 1000 ms after the last one and, on a reopen, 500 ms after the last ARRIVED or 2000 ms after the first; otherwise it waits until the first time it may |
| `Ch341Selector.Selector.Step` | loraham_daemon/daemon_ch341_select.cpp:621-728 | The step on the fields updated in place is the transition the results above are about |
| `Ch341Selector.Selector.Refuse` | loraham_daemon/daemon_ch341_select.cpp:200-219 | A refusal in place: at the start, unless the snapshot is stale and not final; otherwise a wait |
| `Ch341Selector.Selector.AccessWait` | loraham_daemon/daemon_ch341_select.cpp:292-307 | The wait for the first access deadline in place |
| `Ch341Selector.Selector.OpenedDev` | loraham_daemon/daemon_ch341_select.cpp:450-505 | Post-open checks, binding and the twice-checked commit in place |
| `Ch341Selector.Selector.DecideInner` | loraham_daemon/daemon_ch341_select.cpp:509-603 | The counting loop and the decision in place |
| `Ch341Selector.Selector.ScanStep` | loraham_daemon/daemon_ch341_select.cpp:643-664 | One scanned stick or the decision after the last, in place |
| `Ch341Selector.Selector.WalkStep` | loraham_daemon/daemon_ch341_select.cpp:682-724 | One attempt of the Rule B walk in place: every handle it does not keep is released |
| `Ch341Selector.Selector.Begin` | loraham_daemon/daemon_ch341_select.cpp:132-137 | A new selection in place |
| `Ch341Runtime.SelectAtStart` | loraham_daemon/daemon_ch341_runtime.cpp:303-327 | The start loop itself: it ends as the loop of the results does, only with OPENED or REFUSED, and on a quiet bus with an honest pine64 with the one stick that can be chosen |
| `Ch341Runtime.TurnKeepsInv` | loraham_daemon/daemon_ch341_runtime.cpp:303-327 | The loop calls begin only after a conclusive step and keeps the selection invariant |
| `Ch341Hal.ReportedAtMostOnce` | loraham_daemon/ch341_hal.h:216-234 | on_loss fires at most once per HAL, exactly when the loss is latched, and only armed and after READY |
| `Ch341Hal.LostExactly` | loraham_daemon/ch341_hal.h:204-234 | With unplug-wait armed the loss is latched and reported exactly when some call after READY found the device failing |
| `Ch341Hal.FailureEnds` | loraham_daemon/ch341_hal.h:216-234 | Without it the first such failure ends the process; before READY a failure is a startup error |
| `Ch341Hal.TouchedExactly` | loraham_daemon/ch341_hal.h:204-214 | A call reaches the device exactly once while it is open and no loss is latched |
| `Ch341Hal.LostNeverTouches` | loraham_daemon/ch341_hal.h:204-214 | After a latched loss no call reaches the device and nothing more is reported |
| `Ch341Hal.ArmedNeverExits` | loraham_daemon/ch341_hal.h:216-234 | With unplug-wait armed a runtime failure never ends the process by itself |
| `Ch341Hal.Hal.Fail` | loraham_daemon/ch341_hal.h:216-234 | The latch on the fields |
| `Ch341Hal.Hal.Ready` | loraham_daemon/ch341_hal.h:204-214 | The guard on the fields: silent refusal after a loss, a startup error or fatal without a device |
| `UsbWaitSafety.TickKeeps` | loraham_daemon/daemon_usb_wait.cpp:58-175 | Every tick, from every state that ticks and interleaved parts of a loss report reach, keeps the invariant or exits |
| `UsbWaitSafety.GraceNeverMoves` | loraham_daemon/daemon_usb_wait.cpp:58-118 | The grace deadline is the first failure plus 500 ms; no tick and no later report moves it |
| `UsbWaitSafety.GraceStarts` | loraham_daemon/daemon_usb_wait.cpp:22-31 | A loss enters its grace with the deadline of its own stamp |
| `UsbWaitSafety.FaultNeedsElapsedGrace` | loraham_daemon/daemon_usb_wait.cpp:58-118 | From the armed state over any run: the I/O-fault exit needs the elapsed grace of the stamped loss, no LEFT of the bound stick, and a presence check that found it or could not be read |
| `UsbWaitSafety.LeftMeansGone` | loraham_daemon/daemon_usb_wait.cpp:50-118 | A LEFT of the bound stick settles a loss at once: torn down, never a fault |
| `UsbWaitSafety.BackOnlyAfterReinit` | loraham_daemon/daemon_usb_wait.cpp:119-175 | From the armed state over any run: READY again comes only with a re-init on a new HAL; a loss latched meanwhile keeps its own stamp and is not declared back |
| `UsbWaitSafety.FastReplugKeepsNotes` | loraham_daemon/daemon_usb_wait.cpp:58-118 | An ARRIVED or LEFT that came with the bound stick's own LEFT is kept for the selection |
| `UsbWaitSafety.AtRestNothingForgotten` | loraham_daemon/daemon_usb_wait.cpp:119-149 | From the armed state over any run: while unplugged, with no selection running and no retry due, the last snapshot has seen every change taken, if those since it are fewer than 2^32 |
| `UsbWaitSafety.ChangeWakesSelection` | loraham_daemon/daemon_usb_wait.cpp:119-149 | From the armed state over any run: at rest the next ARRIVED, or LEFT of another stick, begins a selection in the same tick with each noted as what it is |
| `UsbWaitSafety.DueRetryBegins` | loraham_daemon/daemon_ch341_runtime.cpp:88-96 | From the armed state over any run: at rest without a new note a selection begins exactly when a retry time is set and the clock has reached it; otherwise the tick changes nothing |
| `UsbWaitSafety.RunKeeps` | loraham_daemon/daemon_usb_wait.cpp:22-175 | Over any interleaving of ticks and the steps of on_loss the invariant holds |
| `UsbWaitSafety.LostHalNeverBack` | loraham_daemon/daemon_usb_wait.cpp:22-175 | Once a loss has taken the health down, READY again means a later HAL, made after a teardown |
| `UsbWaitProgress.FailureIsReported` | loraham_daemon/daemon_usb_wait.cpp:22-31 | A failure of a live HAL is reported in full by its own three steps: health, time of the failure, flag |
| `UsbWaitProgress.UpStaysUp` | loraham_daemon/daemon_usb_wait.cpp:58-80 | Without a loss a tick changes nothing, but drops the notes of other sticks unless the bound one's LEFT is known |
| `UsbWaitProgress.LossIsSettled` | loraham_daemon/daemon_usb_wait.cpp:58-118 | A reported loss is torn down exactly when the LEFT is known or, 500 ms after the failure, the stick is found absent; it is a fault exactly when it is then found present; until then it stays pending |
| `UsbWaitProgress.TeardownIsDone` | loraham_daemon/daemon_usb_wait.cpp:104-145 | A teardown is tried until it succeeds; the next tick then begins a selection |
| `UsbWaitProgress.SelectionIsStepped` | loraham_daemon/daemon_usb_wait.cpp:119-174 | A selection under way is stepped on each tick with the notes taken first; an opened stick is re-initialised in the same tick, a WAIT ends it |
| `UsbWaitProgress.ReinitIsRetried` | loraham_daemon/daemon_usb_wait.cpp:149-174 | A re-init that found the mutex busy is tried again in the next tick, with the selected stick kept |
| `UsbWaitReturn.StickComesBack` | loraham_daemon/daemon_usb_wait.cpp:115-175 | Unplugged with a selection to come: once the bus is quiet and pine64 honest and there is one stick to be chosen, finitely many ticks later it is READY with that stick under a new HAL |
| `UsbWaitReturn.TickNearer` | loraham_daemon/daemon_usb_wait.cpp:119-175 | Each such tick brings the stick back or comes nearer: through the retry time, the selection, one wait at most for a walk to be due, and the selection that walks |
| `Ch341SelectReturns.StepReturns` | loraham_daemon/daemon_ch341_select.cpp:621-720 | On a reopen each step goes on, hands out the stick to be chosen, or waits for a walk until the first time it is due |
| `UsbWaitProgress.UnboundKnowsNoLeft` | loraham_daemon/ch341_monitor.c:207-233 | Over any run no stick is known to have left while none is bound |
| `UsbWaiter.Waiter.Tick` | loraham_daemon/daemon_usb_wait.cpp:58-175 | The tick on the fields updated in place is the transition of these results |
| `UsbWaiter.Waiter.ReportStep` | loraham_daemon/daemon_usb_wait.cpp:22-31 | The four separate writes of on_loss, one at a time |
| `UsbWaiter.Waiter.TickUnplugged` | loraham_daemon/daemon_usb_wait.cpp:119-175 | The unplugged part of a tick in place: notes, a due selection, its step, the re-init |
| `Ch341Monitor.NoReferenceLeaks` | loraham_daemon/ch341_monitor.c:73-179 | From open to close, over any operations: each libusb reference has one owner (an event, a known entry, the binding or the scan's list) and closing releases them all |
| `Ch341Monitor.StepOwned` | loraham_daemon/ch341_monitor.c:132-304 | Every operation leaves each reference with exactly one owner |
| `Ch341MonitorCookies.CookieIsConnection` | loraham_daemon/ch341_monitor.c:139-163 | Over any run with fewer than 2^32 cookies, two scan steps reporting the same cookie saw the same object in the same life, however its address was used in between |
| `Ch341MonitorCookies.ScanCookiesDistinct` | loraham_daemon/ch341_monitor.c:434-505 | Within one scan two devices never share a cookie, whatever happens between the two steps that report them, with fewer than 2^32 cookies issued |
| `Ch341MonitorCookies.CookieKept` | loraham_daemon/ch341_monitor.c:139-163 | A device keeps its cookie through every operation but a scan that does not list it |
| `Ch341MonitorCookies.StepReserved` | loraham_daemon/ch341_monitor.c:434-469 | The known table never outgrows the room scan_begin reserved: a new cookie always finds its slot |
| `Ch341MonitorCookies.DispatchSound` | loraham_daemon/ch341_monitor.c:73-87 | After any operations a LEFT is declared exactly for a LEFT event of the bound device that was held; every ARRIVED and every other LEFT held is counted; events that could not be held show as an arrival and, while bound, as a LEFT or as uncertainty |
| `Ch341MonitorCookies.PresenceExact` | loraham_daemon/ch341_monitor.c:307-352 | After any operations: "attached" exactly when both looks list the bound device and no LEFT is known; "cannot tell" exactly when the deciding look could not be read |
| `Ch341MonitorCookies.BoundExactly` | loraham_daemon/ch341_monitor.c:271-304 | A stick is bound exactly when the list could be read and just one listed device is at its location: that one |
| `Ch341MonitorCookies.ScanBegunExactly` | loraham_daemon/ch341_monitor.c:434-469 | A scan is begun exactly when there is a list and room for its sticks; it holds them, and the known table only what is still listed |
| `Ch341BusMonitor.BusMonitor.DispatchEvents` | loraham_daemon/ch341_monitor.c:207-233 | The dispatch loop in place |
| `Ch341BusMonitor.BusMonitor.BindTo` | loraham_daemon/ch341_monitor.c:271-304 | Binding in place: the one device at the stick's location or none |
| `Ch341BusMonitor.BusMonitor.BeginScan` | loraham_daemon/ch341_monitor.c:434-469 | The scan lists in place, with the failure of each allocation |
| `Ch341BusMonitor.KnownTable.ForgetUnlisted` | loraham_daemon/ch341_monitor.c:150-163 | The compaction loop keeps exactly the listed entries in order and releases exactly the others |
| `Ch341BusMonitor.KnownTable.CookieOf` | loraham_daemon/ch341_monitor.c:139-148 | The search-or-append loop in place, within the reserved room |
| `Ch341BusMonitor.BusMonitor.CloseAll` | loraham_daemon/ch341_monitor.c:165-179 | Closing in place |
| `ConfigParser.ParsedTokensClean` | loraham_daemon/config_parser.cpp:15-70 | Every token of a one-line SET has a non-empty upper-case key without "=" and a non-empty value without blanks or line ends |
| `ConfigGrammar.SetExactly` | loraham_daemon/config_parser.cpp:15-35 | A line is a SET exactly when its text is SET or begins with SET and a blank; only then has it parameters |
| `ConfigGrammar.StretchSays` | loraham_daemon/config_parser.cpp:38-66 | A stretch between blanks is an assignment exactly when it is KEY=VALUE with neither empty, split at the first "="; any other is malformed |
| `ConfigGrammar.LineSays` | loraham_daemon/config_parser.cpp:36-70 | A SET's tokens are its assignments in order and its malformed tokens all other non-empty stretches |
| `ConfigGrammar.TouchesExactly` | loraham_daemon/config_parser.cpp:75-91 | A SET touches the radio exactly when it assigns anything but GETRSSI |
| `ConfigParser.ParseCommand` | loraham_daemon/config_parser.cpp:15-70 | The scanning loop computes the parse the round trip is about |
| `ConfigParser.CommandTouchesRadio` | loraham_daemon/config_parser.cpp:75-91 | The classification loop |
| `ConfigStream.AnySplitSameLines` | loraham_daemon/config_stream.cpp:43-76 | However the kernel cuts the bytes into reads, the lines are the same |
| `ConfigStream.LinesComeOut` | loraham_daemon/config_stream.cpp:25-76 | Exactly the non-empty lines come out, in order, if and only if no line without its CRs reaches 256 bytes |
| `ConfigStream.CStringIs` | loraham_daemon/config_stream.cpp:25-41 | A line is its bytes as characters up to the first NUL |
| `ConfigStream.EmittedOneLine` | loraham_daemon/config_stream.cpp:25-76 | Every line handed to the handler holds neither CR nor LF |
| `ConfigStream.StreamBuffer.FeedBytes` | loraham_daemon/config_stream.cpp:43-76 | The byte loop on the 256-byte buffer |
| `ConfigReplay.NoteIsUpdate` | loraham_daemon/config_replay.cpp:11-20 | Noting a key is a map update: the record keeps the last value of each key once |
| `ConfigReplay.NoteAllRebuilds` | loraham_daemon/config_replay.cpp:11-20 | Replaying a record on an empty one rebuilds it in its own order |
| `ConfigReplay.NoteAllFixed` | loraham_daemon/config_replay.cpp:11-20 | Replaying a record on itself changes nothing |
| `ConfigReplay.PrintParse` | loraham_daemon/config_replay.cpp:37-47 | The printed command parses back to the same mode and the same entries in order with nothing malformed |
| `ConfigReplay.ReplayRecord.NoteKey` | loraham_daemon/config_replay.cpp:11-20 | The search-and-set loop in place |
| `ConfigReplay.ReplayRecord.Command` | loraham_daemon/config_replay.cpp:37-47 | The printing loop |
| `ConfigValidate.AcceptedExactlyWhen` | loraham_daemon/config_validate.cpp:263-369 | A SET is accepted if and only if nothing is malformed, at most one MODE is named and known, and its keys are known, distinct and, for the mode it ends in, valid or foreign |
| `ConfigValidate.ValidateCommand` | loraham_daemon/config_validate.cpp:263-369 | The validation loop gives the first reason in source order |
| `ConfigValues.ValuesAsDocumented` | loraham_daemon/config_validate.cpp:63-235 | For every key of each mode the accepted values are those of the documented key table (docs/conf-protocol.md:81-139) |
| `ConfigValues.NormalIs` | loraham_daemon/config_value.cpp:11-31 | A value's normal form drops the white space around it and lowers its letters |
| `ConfigValues.LettersAre` | loraham_daemon/config_value.cpp:24-31 | Keys are read in capitals and values in small letters: letter by letter, every other character kept |
| `ConfigValues.LdroTakesAnyCase` | loraham_daemon/config_validate.cpp:143-149 | LDRO takes AUTO in any mix of cases, where the documentation names two |
| `ConfigPolicy.LoraAirtimeMonotone` | loraham_daemon/config_policy.cpp:265-281 | A shorter LoRa packet is never longer on air (ceiling formula, low-data-rate optimisation included), so the check of the largest packet covers all |
| `ConfigPolicy.FskAirtimeMonotone` | loraham_daemon/config_policy.cpp:284-293 | The same for FSK |
| `ConfigValues.AirtimeIs` | loraham_daemon/config_policy.cpp:265-281 | A LoRa packet is on air for its preamble, 12.25 symbols and the least number of coded blocks that carries its bits, with two bits less each where a symbol takes 16 ms |
| `ConfigValues.FskAirtimeIs` | loraham_daemon/config_policy.cpp:284-293 | An FSK packet is on air for its preamble bits, ten bytes and itself at the bit rate |
| `ConfigApplyReplay.HistoryInv` | loraham_daemon/config_apply.cpp:163-317 | After any history of CONF lines and replugs, hardware errors included, the replay record alone determines mode, airtime shadow and, unless suspect, every driver setting |
| `ConfigApplyReplay.HistoryAirtime` | loraham_daemon/config_apply.cpp:79-161 | After any history of CONF lines and replugs without a hardware error the daemon goes on, and the shadow passes the airtime gate: the configuration judged is the one applied |
| `ConfigApplyReplay.GateJudgesEveryPacket` | loraham_daemon/config_apply.cpp:79-137 | The gate admits a configuration exactly when every packet the radio takes in that mode (63 bytes for FSK on SX127x, else 255) is at most 20 000 ms on air |
| `ConfigApplyReplay.AirtimeBound` | loraham_daemon/config_apply.cpp:79-137 | After any such history every packet up to the payload limit of the mode is at most 20 000 ms on air |
| `ConfigApplyReplay.ReplayRefines` | loraham_daemon/daemon_ch341_runtime.cpp:131-167 | After any history of CONF lines and replugs the replay of the record is accepted if and only if it is empty or the shadow is within the airtime limit, and then rebuilds mode, shadow, driver settings and the record itself |
| `ConfigApplyReplay.ReplugRebuilds` | loraham_daemon/daemon_ch341_runtime.cpp:131-167 | A replug either ends the daemon or brings back mode, shadow, driver settings and record with listening off; without a fault it does so exactly when the replay is accepted; reception is re-armed exactly when there was something to replay |
| `ConfigApplyReplay.FaultlessReplaySucceeds` | loraham_daemon/config_apply.cpp:163-317 | Without hardware errors the replay is always accepted and is a fixpoint |
| `ConfigApplyReplay.HardwareErrorCanBlockReplay` | loraham_daemon/config_apply.cpp:163-317 | The condition is needed: a history whose second setter fails leaves a record whose replay the gate refuses |
| `ConfigApplyReplay.UntouchedRadio` | loraham_daemon/config_parser.cpp:75-91 | A line not classified as touching the radio reaches no setter and no mode switch |
| `ConfigApplyReplay.CallsShow` | loraham_daemon/config_apply.cpp:163-317 | A line makes a driver call if and only if it is answered as applied or as a hardware error |
| `ConfigOutcome.AcceptedLineSets` | loraham_daemon/config_apply.cpp:218-317 | An accepted line without a fault ends in the mode it names and leaves in the driver every key of that mode (two literal lists) at its value, all else as before or nothing after a MODE; GETRSSI as given; the radio is left alone exactly without a MODE and such a key |
| `ConfigOutcome.FaultExactly` | loraham_daemon/config_apply.cpp:218-317 | It makes one driver call for MODE and one per key of its mode; the n-th failing ends it there as a hardware error with the driver suspect |
| `ConfigOutcome.AnswersExactly` | loraham_daemon/config_apply.cpp:163-216 | Which line is malformed, unknown, accepted: by its shape, its first faulty token and the gate |
| `ConfigOutcome.RefusedChangesNothing` | loraham_daemon/config_apply.cpp:163-216 | A refused line changes nothing |
| `ConfigApplyReplay.BandDefaultsWithinAirtime` | loraham_daemon/config_apply.cpp:50-62 | Both bands boot within the airtime limit |
| `ConfigPipeline.Pipeline.ParseAndApply` | loraham_daemon/config_apply.cpp:163-317 | The apply path on the fields updated in place, token by token |
| `ConfigPipeline.Pipeline.AirtimeGate` | loraham_daemon/config_apply.cpp:79-137 | The merging loop and the gate in place |
| `ConfigPipeline.Pipeline.Reinitialise` | loraham_daemon/daemon_ch341_runtime.cpp:131-167 | Re-init and replay in place, with an init that fails, a replay that is refused, and the re-arming of reception after an applied one |
| `FramedData.RxPacketReadsBack` | loraham_daemon/framed_data.cpp:125-169 | A client reads back exactly the RSSI, SNR and RF bytes of an RX_PACKET |
| `FramedData.FrameReadsBack` | loraham_daemon/framed_data.cpp:98-123 | A frame is its type, its payload's length low byte first, and the payload |
| `FramedData.LengthsAllowed` | loraham_daemon/framed_data.cpp:15-95 | The types and lengths a header may have are the protocol's |
| `FramedData.DecodeHeader` | loraham_daemon/framed_data.cpp:53-95 | A header decodes to what it was encoded from, exactly when its length is valid for its type |
| `FramedData.EncodeFrame` | loraham_daemon/framed_data.cpp:98-123 | The encoder writes the frame or leaves the buffer alone |
| `FramedData.EncodeRxPacket` | loraham_daemon/framed_data.cpp:125-169 | The RX_PACKET encoder in the caller's buffer |
| `FramedData.EncodeTxResult` | loraham_daemon/framed_data.cpp:171-198 | The TX_RESULT encoder in the caller's buffer |
| `FramedDataTx.AutomatonIsGrammar` | loraham_daemon/framed_data_tx.cpp:96-144 | Feeding any bytes in any state gives exactly the events of the recursive frame grammar on what the state holds followed by the bytes |
| `FramedDataTx.AnySplitSameEvents` | loraham_daemon/framed_data_tx.cpp:96-144 | However a stream is cut into reads, its events are the grammar's |
| `FramedDataTx.ReadsAreMeaning` | loraham_daemon/framed_data_tx.cpp:32-144 | Apart from the handler's failures the events of any stream in any reads are its meaning frame by frame: whole TX packets of at most 255 bytes are handed on, every other frame is one problem named by its type and length |
| `FramedDataTx.ResyncAfterFrame` | loraham_daemon/framed_data_tx.cpp:32-94 | A rejected or unsupported frame is exactly one problem, and parsing resumes right after its declared length |
| `FramedDataTx.RejectedExactly` | loraham_daemon/framed_data_tx.cpp:32-94 | Any frame but a TX packet of at most 255 bytes is one problem, named by its type and length, and nothing is sent |
| `FramedDataTx.TxPacketsRoundTrip` | loraham_daemon/framed_data_tx.cpp:73-144 | Encoded TX packets of 0 to 255 bytes come back as exactly those payloads in order, and what follows is parsed from a fresh start |
| `FramedDataTx.TxPacketsComeBack` | loraham_daemon/framed_data_tx.cpp:73-144 | Concatenated TX packets of 0 to 255 bytes, cut into any reads, come out as exactly those payloads in order and nothing else |
| `FramedDataTx.FramesExplained` | loraham_daemon/framed_data_tx.cpp:73-94 | A failed TX is reported right after each packet whose handler failed, and only there |
| `FramedDataTx.FreshStreamNeedsRest` | loraham_daemon/daemon_framed_data_runtime.cpp:193-226 | A connection is parsed as its own stream if and only if the state beside its slot holds nothing of an earlier frame |
| `FramedDataTx.TxState.FeedState` | loraham_daemon/framed_data_tx.cpp:96-144 | The byte loop on the header and payload buffers in place |
| `FramedDataTx.TxState.HeaderIsReady` | loraham_daemon/framed_data_tx.cpp:32-71 | The header decision in place |
| `ClientOutputQueue.OutputQueue.Append` | loraham_daemon/client_output_queue.cpp:46-65 | All of the bytes, or none when they do not fit |
| `ClientOutputQueue.OutputQueue.Consume` | loraham_daemon/client_output_queue.cpp:67-84 | The move to the front of the buffer keeps exactly the bytes not consumed |
| `ClientOutputQueue.OutputQueue.FlushTo` | loraham_daemon/client_output_queue.cpp:86-117 | Under any sequence of partial sends and errors, bytes sent followed by bytes kept are the bytes that were pending |
| `ClientOutputQueue.FlushExactly` | loraham_daemon/client_output_queue.cpp:86-117 | A flush sends all that the socket accepts until the queue is empty or an answer stops it; it waits on a full socket, and a failed or empty send is the end |
| `ClientSlot.OnlyWholeFrames` | loraham_daemon/client_slot.cpp:181-245 | In every run a live connection's sent bytes followed by its pending bytes are the concatenation of all frames offered since its socket was set, so the peer has a prefix of whole frames |
| `ClientSlot.SurvivesExactly` | loraham_daemon/client_slot.cpp:52-245 | A live connection survives exactly when no frame overflows its 65536 bytes, no send fails and nobody closes or replaces it, and then has what it was given |
| `ClientSlot.NobodyHoldsNothing` | loraham_daemon/client_slot.cpp:181-245 | A flush or broadcast of a slot without a client empties it |
| `ClientSlot.QueueErrorIsQueue` | loraham_daemon/daemon_framed_data_runtime.cpp:54-81 | The two appends of an ERROR frame are one all-or-nothing append of the whole frame |
| `ClientSlot.ErrorFrameSays` | loraham_daemon/daemon_framed_data_runtime.cpp:54-81 | An ERROR frame carries the message, cut to 255 bytes |
| `ClientSlot.GenerationComesBack` | loraham_daemon/client_slot.cpp:11-15 | A generation comes back if and only if the number of changes is a multiple of 2^32 - 1 |
| `ClientSlot.EqualGenerationSameConnection` | loraham_daemon/client_slot.cpp:52-91 | An equal generation means the same connection with fewer than 2^32 - 1 changes in between |
| `ClientSlot.ClientSlot.QueueErrorFrame` | loraham_daemon/daemon_framed_data_runtime.cpp:54-81 | The ERROR frame in place; either failed append closes |
| `ClientSlot.ClientSlot.FlushSocket` | loraham_daemon/client_slot.cpp:181-193 | Flush or close in place |
| `ClientSlot.ClientSlot.CloseSocket` | loraham_daemon/client_slot.cpp:79-91 | Close in place: new generation, empty output, empty line buffer |
| `ClientSlot.AddClient` | loraham_daemon/client_slot.cpp:118-131 | The first free slot or none |
| `ClientSlot.Broadcast` | loraham_daemon/client_slot.cpp:221-245 | Every slot gets its own part of a broadcast, whatever becomes of the others |
| `TxQueue.JobQueue.Push` | loraham_daemon/daemon_tx_queue.cpp:13-29 | The ring of 8 refuses when full and loses nothing |
| `TxQueue.JobQueue.Pop` | loraham_daemon/daemon_tx_queue.cpp:31-42 | First in, first out |
| `TxQueue.JobQueue.DiscardAll` | loraham_daemon/daemon_tx_queue.cpp:44-59 | Discards and counts every waiting job |
| `TxAsync.ConfigFrozenUnderJobs` | loraham_daemon/config_dispatch.cpp:291-337 | Over all interleavings no driver call runs through the dispatcher while a job is queued or executing, whatever it would set; so each job executes under the tuning it was accepted under |
| `TxAsync.DirectSendAlone` | loraham_daemon/config_dispatch.cpp:152-176 | The queue is switched off only when no job is left, and a direct send never overlaps one |
| `TxAsync.JobsConserved` | loraham_daemon/daemon_tx_async_worker.cpp:127-262 | At every point accepted = processed + in flight (at most 1) + pending + dropped, and results answer the jobs in the order of acceptance |
| `TxAsync.StoppedLedger` | loraham_daemon/daemon_tx_async_worker.cpp:217-237 | After stop and join the accepted jobs are the processed ones followed by the discarded ones |
| `TxAsync.SubmitExact` | loraham_daemon/daemon_tx_async_worker.cpp:239-262 | A submission is accepted exactly when fewer than eight jobs wait and no stop is requested, and is then the last to wait |
| `TxAsync.StartExact` | loraham_daemon/daemon_tx_async_worker.cpp:191-215 | A start makes a worker ready to take jobs, or leaves a running one alone |
| `TxAsync.StopExact` | loraham_daemon/daemon_tx_async_worker.cpp:217-237 | A stop request is heard at once: what waits is discarded and counted and the main loop joins |
| `TxAsync.OldestIsServed` | loraham_daemon/daemon_tx_async_worker.cpp:127-189 | In any reachable state the worker's next four steps take the job that has waited longest, execute it and record its result, flagged for managed mode and for a CAD timeout |
| `TxAsync.WorkGoesDown` | loraham_daemon/daemon_tx_async_worker.cpp:127-189 | Under any schedule every step of the worker lowers what is left to do by one, and only a submission raises it |
| `TxAsync.JoinEnds` | loraham_daemon/daemon_tx_async_worker.cpp:127-189 | While the main loop joins, under any schedule, only the worker's next step moves it, each takes it one step nearer to leaving, and the main loop is freed exactly once it has left |
| `TxAsync.JoinEndsUnderAnySchedule` | loraham_daemon/daemon_tx_async_worker.cpp:217-237 | The worker has left after at most 4 of its own steps, however the main loop's are mixed in |
| `TxAsync.GateExact` | loraham_daemon/config_dispatch.cpp:310-337 | Read without interruption the gate answers BUSY, with nothing applied, if and only if the line touches the radio and a job waits or the worker is active; otherwise the line is applied and answered with what that did |
| `TxAsync.QueueOffExact` | loraham_daemon/config_dispatch.cpp:152-176 | TXQUEUE=0 read without interruption is accepted exactly when no job waits and the worker is idle, and answered BUSY otherwise |
| `TxAsync.DirectSendExact` | loraham_daemon/daemon_data_tx_runtime.cpp:396-470 | A direct send goes on exactly when the queue is off, empty and idle, and then ends with the main loop free |
| `TxAsync.ReadingOrderMatters` | loraham_daemon/daemon_tx_async_worker.cpp:141-177 | Why pending is read before job_active: a reachable state in which the opposite order would see both clear while a job executes |
| `TxAsync.EveryInterleaving` | loraham_daemon/daemon_tx_async_worker.cpp:127-262 | Every interleaving of the two threads keeps the invariant behind these results |
| `TxAsync.AsyncWorker.SubmitJob` | loraham_daemon/daemon_tx_async_worker.cpp:239-262 | Submission under the lock, with the accounting |
| `TxAsync.AsyncWorker.TakeNext` | loraham_daemon/daemon_tx_async_worker.cpp:141-177 | The loop's locked block: wait, leave, or pop and be active |
| `TxAsync.AsyncWorker.RecordIt` | loraham_daemon/daemon_tx_worker.cpp:39-53 | Recording a result and pushing it as a completion |
| `TxAsync.AsyncWorker.Start` | loraham_daemon/daemon_tx_async_worker.cpp:191-215 | Start, with the failure of thread creation |
| `TxAsync.AsyncWorker.Stop` | loraham_daemon/daemon_tx_async_worker.cpp:217-237 | The stop request: nothing more is accepted and what waits is discarded and counted |
| `TxJob.OutcomesRoundTrip` | loraham_daemon/daemon_tx_outcome.h:31-92 | Outcomes and TX results convert both ways without loss; status bytes are distinct and always encodable |
| `TxCompletion.NewestInOrder` | loraham_daemon/daemon_tx_completion.cpp:84-123 | The completion ring holds the newest results in order, at most 16; pushes = pops + count + dropped; pops come in push order |
| `TxCompletion.CompletionQueue.Push` | loraham_daemon/daemon_tx_completion.cpp:84-105 | The drop-oldest ring in place |
| `TxCompletion.DeliverToSlot` | loraham_daemon/daemon_tx_completion.cpp:19-53 | A completion is queued whole on the live slot of its generation, or that slot is closed when it does not fit, or nothing changes; stale exactly when the slot lives under another generation |
| `TxCompletion.ResultReadsBack` | loraham_daemon/daemon_tx_completion.cpp:5-17 | A client reads back the outcome as its documented code, the flags and the sequence number |
| `TxCompletion.AddressedOrStale` | loraham_daemon/daemon_tx_completion.cpp:19-53 | A completion whose slot lives is either its connection's or stale, never both; without a live slot it is neither |
| `TxCompletion.RightClient` | loraham_daemon/daemon_tx_completion.cpp:19-53 | A completion reaches the connection that submitted its job and no other, with fewer than 2^32 - 1 generation changes in between |
| `ListenBeforeTalk.LegalTicks` | loraham_daemon/daemon_tx_policy.h:15-22 | Values a client can set give 1 to 500 wait ticks, rounded up, in 32-bit arithmetic without overflow |
| `ListenBeforeTalk.ClearExactly` | loraham_daemon/daemon_data_tx_runtime.cpp:129-192 | The channel is found clear if and only if the required run of consecutive free probes fits before the limit, before any failed probe and before any packet of our own |
| `ListenBeforeTalk.VerdictExactly` | loraham_daemon/daemon_data_tx_runtime.cpp:129-192 | Listening ends at the first probe that fails, finds a packet of our own or completes the run, with that verdict in this order, and else in the timeout at the limit |
| `ListenBeforeTalk.PendingNeverTimesOut` | loraham_daemon/daemon_data_tx_runtime.cpp:153-176 | A received packet of our own ends the attempt and never reaches the send-after-timeout |
| `ListenBeforeTalk.OnePolicy` | loraham_daemon/daemon_tx_executor.cpp:46-98 | With a wait of at least one tick the direct and the queued path decide every channel alike after the same number of probes |
| `ListenBeforeTalk.ZeroWaitParts` | loraham_daemon/daemon_tx_executor.cpp:46-98 | With a wait of 0 ticks they part: one times out unprobed, the other listens until decided |
| `ListenBeforeTalk.WaitChannelFree` | loraham_daemon/daemon_data_tx_runtime.cpp:129-192 | The direct loop against the policy |
| `ListenBeforeTalk.ExecuteJob` | loraham_daemon/daemon_tx_executor.cpp:38-99 | The executor's loop against the policy, ending whenever its limit or the channel ends it |
| `DataTx.ChunksAreTheBytes` | loraham_daemon/data_tx.cpp:12-44 | Chunks are non-empty, at most the limit, and concatenate to the bytes |
| `DataTx.ChunkCount` | loraham_daemon/data_tx.cpp:12-44 | No more chunks than the limit makes necessary |
| `DataTx.BoundedReadAccepted` | loraham_daemon/daemon_data_tx_runtime.cpp:91-117 | A read bounded by (8 - pending) * limit is split into jobs every one of which is accepted, whatever the worker takes meanwhile, and together they are the bytes read |
| `DataTx.ReadIsLargest` | loraham_daemon/daemon_data_tx_runtime.cpp:91-117 | No larger read within the buffer would fit the queue; the direct path reads the whole buffer |
| `DataTx.OneLimitForBoth` | loraham_daemon/daemon_data_tx_runtime.cpp:104-107 | Counting the capacity in 255-byte slots while chunks are 63 bytes would overrun the queue |
| `DataTx.ForEachChunk` | loraham_daemon/data_tx.cpp:23-44 | The chunk loop hands over chunk after chunk until one is refused |
| `DataTx.ProcessClient` | loraham_daemon/data_tx.cpp:47-108 | A read takes no more than the queue has room for and the excess stays in the kernel; a read error or the end of the stream closes the client, and nothing else does |
| `FramedRuntime.OkMeansAccepted` | loraham_daemon/daemon_data_tx_runtime.cpp:396-530 | On the queued path OK means exactly that the packet's job was accepted, with its target, its mode and, for managed LoRa alone, the CAD policy; nothing goes on the air directly beside a queued or executing job |
| `FramedRuntime.RefusalsExact` | loraham_daemon/daemon_data_tx_runtime.cpp:396-530 | Not ready, too large for the radio, residual queue, no worker, full queue, busy transmitter or channel, failed probe: each refusal is given exactly for its causes; the radio is asked to send if and only if it is ready, on the direct path with no job left, free, and listen-before-talk lets the packet through |
| `FramedRuntime.ExactlyOneAnswer` | loraham_daemon/daemon_framed_data_runtime.cpp:106-162 | With TXRESULT on a packet has one immediate result or one accepted job carrying its sequence number, never both, and no ERROR besides |
| `FramedRuntime.EveryPacketAnswered` | loraham_daemon/daemon_framed_data_runtime.cpp:106-255 | Over any stream in any split, while CONF switches as it likes: the parser's events are the grammar's, every packet met with TXRESULT on has its one answer, answers are numbered consecutively, and only a packet met with TXRESULT off is ever reported as failed |
| `FramedRuntime.ResultsOffStillAnswers` | loraham_daemon/daemon_framed_data_runtime.cpp:106-162 | With TXRESULT off a failed packet is an ERROR; one is still answered by a completion with sequence number 0 if and only if the queue is on, the radio ready, the packet within its limit and the worker running or startable with room |
| `FramedRuntime.UnaskedCompletion` | loraham_daemon/daemon_framed_data_runtime.cpp:126-130 | Such a completion is addressed to the client as long as its connection lasts |
| `FramedRuntime.UnaskedResultArrives` | loraham_daemon/daemon_framed_data_runtime.cpp:106-162 | One byte with TXRESULT off: its TX_RESULT frame is pending on the connection afterwards |
| `FramedRuntime.TimeoutFlagOnlyLater` | loraham_daemon/daemon_framed_data_runtime.cpp:138-148 | An immediate result misses the CAD-timeout flag if and only if the packet goes out on the direct path after a CAD timeout; a completion carries it exactly after one; either carries the managed flag exactly in managed mode |
| `FramedRuntime.TimeoutFlagMissing` | loraham_daemon/daemon_framed_data_runtime.cpp:138-148 | One byte sent directly on a busy channel with send-after-timeout: on the air, answered with the managed flag alone |
| `FramedRuntime.PassResets` | loraham_daemon/daemon_framed_data_runtime.cpp:196-226 | A pass that finds the slot empty or closes it leaves the parser state at rest |
| `FramedRuntime.StaleStateReachable` | loraham_daemon/daemon_framed_data_runtime.cpp:196-226 | A slot closed elsewhere and accepted again before a pass can parse the new connection behind the old one's half frame |
| `FramedRuntime.TxContext.HandlePacket` | loraham_daemon/daemon_framed_data_runtime.cpp:106-162 | The packet handler in place: the target set for one send and cleared, the result queued whole or the client closed |
| `FramedRuntime.DrainCompletions` | loraham_daemon/daemon_framed_data_runtime.cpp:258-284 | The drain delivers every waiting completion in order and counts those whose slot lives under another generation as stale |
| `FramedRuntime.StaleCounted` | loraham_daemon/daemon_framed_data_runtime.cpp:258-284 | The drain counts as stale exactly the completions that find another connection on their slot when their turn comes |
| `FramedEndToEnd.AcceptedPacketAnswered` | loraham_daemon/daemon_framed_data_runtime.cpp:106-284 | Over any run before and after: a packet accepted for a later answer ends with its TX_RESULT queued whole on the connection it came on (with fewer than 2^32 - 1 changes since), or was discarded by a stop, dropped by the full ring, or its connection had ended |
| `FramedEndToEnd.EveryJobOneFate` | loraham_daemon/daemon_tx_async_worker.cpp:127-262 | Over any run every accepted job has exactly one fate: the pending ones are as many as wait, are in flight or await the drain, the dropped and discarded ones as many as ring and worker count, and two answers on one connection are two frames of it |
| `FramedEndToEnd.RunExtends` | loraham_daemon/daemon_tx_completion.cpp:19-53 | A job's fate, once settled, is never revised: it is answered at most once |
| `FramedEndToEnd.PacketTicket` | loraham_daemon/daemon_framed_data_runtime.cpp:106-162 | A packet gets a job exactly when it is to be answered later; a result due now is queued on its connection instead; with TXRESULT on it is one or the other |
| `FramedEndToEnd.DrainsAsDelivered` | loraham_daemon/daemon_framed_data_runtime.cpp:258-284 | The drain step of these results is the delivery of the completion on the slots |
| `EpollReconcile.SuccessfulEpoch` | loraham_daemon/event_loop_epoll.cpp:184-319 | After an epoch whose calls all succeeded, table and kernel interest set are exactly its requests, with the events asked for or readiness to read when none are |
| `EpollReconcile.ReconcileFdExactly` | loraham_daemon/event_loop_epoll.cpp:208-277 | A request is met exactly when the epoch is under way, its key has not moved to another number, a new one has room among 128, and the kernel does not refuse the call it takes |
| `EpollReconcile.FittingEpochSucceeds` | loraham_daemon/event_loop_epoll.cpp:184-319 | An epoch of requests that fit succeeds when the kernel refuses nothing, and table and interest set are then its requests |
| `EpollReconcile.OnlyInAnEpoch` | loraham_daemon/event_loop_epoll.cpp:184-319 | Epochs do not nest, and outside of one nothing is registered or swept |
| `EpollReconcile.EveryLife` | loraham_daemon/event_loop_epoll.cpp:184-319 | Over any life of the process, with descriptor numbers closed and reused and the epoch wrapping, that holds after each epoch |
| `EpollReconcile.OpeningKeepsExactly` | loraham_daemon/event_loop_epoll.cpp:208-277 | Table and kernel stay in agreement if and only if a newly opened descriptor's key is not registered for its number |
| `EpollReconcile.ReusedKeyIsLost` | loraham_daemon/daemon_ch341_runtime.cpp:368-399 | A descriptor that takes over its predecessor's key and number between two epochs is taken for registered and never watched |
| `EpollReconcile.BeginKeeps` | loraham_daemon/event_loop_epoll.cpp:184-206 | After begin nothing counts as seen, across the wrap of the 64-bit epoch |
| `EpollInPlace.EpollSet.BeginEpoch` | loraham_daemon/event_loop_epoll.cpp:184-206 | Begin on the table in place |
| `EpollInPlace.EpollSet.Reconcile` | loraham_daemon/event_loop_epoll.cpp:208-277 | Find, modify or add on the table in place |
| `EpollInPlace.EpollSet.EndEpoch` | loraham_daemon/event_loop_epoll.cpp:279-319 | The sweep on the table in place; without a begin it is refused and changes nothing |

## Left out

- Ch341SelectStart.StartEndsOnQuietBus: termination is claimed on a quiet bus only, because a walk resets the cap clock and an endlessly flapping stick can keep the start loop going.
- UsbWaitReturn.StickComesBack: begins with no selection under way, because one that is may rest on a snapshot older than the quiet; re-inits succeed at once, a busy mutex being `UsbWaitProgress.ReinitIsRetried`; and the clock does not stand still for ever.
- Ch341Runtime.SelectAtStart: speaks of starts that end; the loop itself has no bound, and that it ends on a quiet bus is `Ch341SelectStart.StartEndsOnQuietBus`.
- UsbWaitSafety.RunKeeps: the health stays UNPLUGGED during a loss there; a CONF setter that fails during the loss writes FAILED over it (config_dispatch.cpp:332), which is not a step of that module.
- ConfigApplyReplay.AirtimeBound: speaks of histories without a hardware error, because after one the driver's configuration is not known.
- TxAsync.ConfigFrozenUnderJobs: speaks of the CONF dispatcher; the replay after a replug does not pass its busy gate and is not a step of this model.
- TxAsync.StoppedLedger: the reset of all counters when the runtime is shut down is not modelled.
- ListenBeforeTalk.OnePolicy: the queued path's probe reports a pending local packet as busy inside the probe, which is part of the channel here; the time spent sleeping between probes is not modelled.
- FramedRuntime.DrainCompletions: completions the worker pushes while the drain runs belong to the next drain; in `FramedEndToEnd` the drain is one step per completion, so that they may come at any point.
- FramedEndToEnd.AcceptedPacketAnswered: the reset of worker and completions at shutdown is not a step there; what is pending then stays pending.
- EpollReconcile.EveryLife: registrations without an owner (the plain add) are not modelled; the daemon makes none.
- Ch341BusMonitor.BusMonitor.DispatchEvents: the notifier generation and the list of poll descriptors are not modelled.
- Ch341BusMonitor.BusMonitor.StepScan: reports the cookie; opening the stick and reading its serial are answers of the environment in the selection.
- ClientSlot.Broadcast: the slots of a channel are values in an array there; one slot's buffers in place are the class `ClientSlot.ClientSlot`.
- ConfigStream.StreamBuffer.FeedBytes: a handler that closes its own slot in the middle of a read, and the flush of an unfinished line at the end of a stream, are not modelled.
- TxAsync.GateExact: the re-arming of reception after an applied line and the FAILED health after a hardware error follow the apply and are not modelled.
- Text of log lines, of the reasons shown to a user and of STATUS, STATS and CHANNEL replies; the matching of the reserved runtime setters.
- The radio drivers, the transmit path below the sender, the wait for a busy transmitter (one answer of the environment), RX, CAD monitoring, LED, locks and boot.
- Clients and the archived single-file daemons.
