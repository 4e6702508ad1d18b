# PSTV demo cart: a verified model

This project models the demo cart runtime of the PSTV port and the two protocols
around it, and proves what they are relied on for.

* **Worker pool** (`WorkerPool.dfy`). Worker threads, the startup gate (mutex and
  condition variable) and the two barriers of n + 1 parties are a transition system;
  a run is any interleaving, with thread-creation failures and spurious wakeups as free
  choices. One inductive invariant gives exact job delivery, absence of races and
  deadlocks, termination of every call and agreement with the single-threaded mode.
* **Scene scheduler, crossfade, display loop** (`Runtime.dfy`, `Canvas.dfy`,
  `Transition.dfy`, `DisplayLoop.dfy`, `SceneFade.dfy`). The photosensitivity guard: spacing of scene
  changes under any clock and any button presses, deadline accounting, a gradual fade,
  and the sequence of frames the loop shows.
* **Input engine** (`InputPlan.dfy`, `InputNormalize.dfy`, `InputEvents.dfy`,
  `InputFrame.dfy`, `InputEngine.dfy`, `InputSession.dfy`). Discovery and descriptor
  ownership, byte-stream reassembly and held keys over all polls since connect, the
  desync machine, the bounded action queue, axis calibration and the frame snapshot.
* **Scene rows** (`SceneRows.dfy`, `SceneSamples.dfy`). The six animated backgrounds in overflow-checked C
  ints on the reduced frame number, against unbounded arithmetic on the full one, and
  through the worker pool.
* **Framebuffer owner** (`FbOwner.dfy`) and **payload deployment** (`Deploy.dfy`). What
  each keeps under every failure pattern.
* **PPM writer and reader** (`Ppm.dfy`, `Decimal.dfy`). A printer in C and a parser in
  Python that undo each other.

`Arith.dfy` holds the integer facts used throughout, `Words.dfy` the machine words. `dafny verify dfyconfig.toml`
checks the whole project.

Objects the sources update in place are classes whose methods are proved against value
functions; the theorems are about those functions over whole runs. Every answer of the
operating system, the network or the clock is a parameter.

## Findings

* A server that answers the first read of `payload.bin` with a permanent error, or completes
  it with no bytes, while the file holds some makes the deployment overwrite the only copy
  (`tools/hardware-gate.py:165-184`). `Deploy.UnreadPayloadLost` gives both inputs,
  `Deploy.SurvivesExactly` the exact condition on what was read, and
  `Deploy.SurvivesHonestExactly` that of a server whose later reads return the file.
* The probe of the framebuffer owner compares the stride with a 32-bit product that may
  wrap (`toolkit/examples/vita-dashboard/src/fb_owner.c:154-165`).
  `FbOwner.WrappedRowAccepted` is an input, `FbOwner.GeometryExact` the exact condition.
* The header promises that a frame write is never partial
  (`toolkit/examples/vita-dashboard/src/fb_owner.h:60-63`). A write that breaks off leaves
  a partial frame on the screen (`FbOwner.HalfFrameShown`), and so does one that meets no
  error on a screen shorter than a frame, which the probe accepts from a driver that does
  not tell its memory (`FbOwner.ShortScreenTorn`). `FbOwner.PartialExactly` and
  `FbOwner.WriteOutcome` say exactly when, from the device's answers and the screen's
  length. Such a frame is not counted and is the last thing written.
* The comment at `cart/src/pstv-demo-cart.c:259-263` says the rate limiter keeps the next
  change from arriving before a fade completes. On a slow loop it does arrive
  (`DisplayLoop.SlowFramesMoveMidFade`). Over readings that never go back, some input moves
  the scheduler off a fade's target before the fade's last look at it exactly when the
  fade's fifteenth iteration is first read with the cooldown since the scheduler's last
  change over (`DisplayLoop.CrossedExactly`, for any number of iterations
  `DisplayLoop.MovesExactly`; the second tick of each iteration is included). Fades are
  uninterrupted because of the guard that no fade is active, and the theorems about the
  shown frames need no assumption about timing.
* The comment at `cart/src/transition.c:48-52` says neither end of a fade shows a step
  against the steady frames. The weights leave at most three levels there, but the fade's
  pictures are frozen at its first frame number while the scene goes on: the exit seam is
  the target scene's own drift since then, give or take three levels
  (`DisplayLoop.FadeExitIsDrift`). A fade into the candy scene that begins on frame 0 ends
  with a jump of at least 171 levels of red at one pixel (`SceneFade.FadeExitCanJump`).
* A source left desynchronised at the end of a poll is skipped by all later polls
  (`cart/src/input_evdev.c:703-704`), although the comment there says it waits for a
  report. `InputSession.ReportInNextPoll` is an instance and `InputSession.LostExactly`
  the exact condition: the poll's whole records hold a drop with no report behind it.
* A source's generation does not grow with every connect, as
  `cart/include/cart/input.h:40` says: the prepared copy replaces the counter before it is
  incremented (`cart/src/input_evdev.c:431-436`), so every open source is in generation 1,
  the total a frame shows is the number of connected sources (`InputFrame.TotalIsCount`,
  `InputEngine.CartInput.Poll`), and a reconnect into the same slot is invisible in it
  (`InputEngine.ReconnectUnseen`).
* The comment at `cart/src/input_evdev.c:682-683` says that a lower source index means a
  higher-or-equal rank. It does from init on through any polls, so that each axis belongs
  to a best source (`InputEngine.OwnerRanksBest`, `InputEngine.PollsKeepInit`). A rescan
  into a freed slot keeps the order exactly when the new rank fits between the open slots
  around it (`InputEngine.RescanKeepsRank`); `InputEngine.LesserOwnsStick` is an input
  where it does not and the lesser source owns the axis.
* The copy shortcuts of the blend agree with per-pixel mixing only on opaque images
  (`Transition.ShortcutsAgree`).
* Only the first 16 admissible nodes of a listing are candidates, whatever their rank
  (`InputEngine.AdmittedCaps`).

## Model

| member | source | states |
|---|---|---|
| WorkerPool.InvNext | cart/src/worker_pool.c:19-163 | Every step of every thread keeps the invariant: barrier counts are the threads waiting there, the two phases alternate, the mutex has one holder, shared request fields hold what the dispatcher has written so far, logs and painted rows are exactly those of the dispatches. |
| WorkerPool.InvRun | cart/src/worker_pool.c:19-163 | The invariant holds in every state of every interleaving of init, any number of dispatches and shutdown. |
| WorkerPool.BandsTile | cart/src/worker_pool.c:41-45 | Each row lies in exactly one worker's band. |
| WorkerPool.DispatchComplete | cart/src/worker_pool.c:36-48 | Whenever no call is in progress, each worker has made exactly one call per dispatch, in order, with that dispatch's job, slot, band and generation; the image is the last dispatch's, and equals the single inline call's for a job that does not depend on its slot. |
| WorkerPool.LoggedCalls | cart/src/worker_pool.c:40-46 | Every logged call has the dispatch's job and generation, the worker's own slot, and the rows from cut w to cut w + 1, a cut being w * rows / n rounded down, stated by the bounds that fix it. |
| WorkerPool.CutsEven | cart/src/worker_pool.c:41-42 | Between two cuts lie rows / n rows or one more, so no band is empty when there are at least as many rows as workers. |
| WorkerPool.CutEnds | cart/src/worker_pool.c:41-42 | The first cut is at row 0 and the last at the last row's end. |
| WorkerPool.JobsInsideBarriers | cart/src/worker_pool.c:135-141 | A worker runs a job only while the dispatcher is between its two barrier waits, and inside the rows; job, slots, generation and the shutdown flag are never written while a worker may read them. |
| WorkerPool.DestroyedAfterJoin | cart/src/worker_pool.c:144-163 | The barriers are destroyed only when every created worker has exited. |
| WorkerPool.FailedInitIsClosed | cart/src/worker_pool.c:88-111 | If creating any thread fails, no worker ever reaches a barrier or runs a job. |
| WorkerPool.NoDeadlock | cart/src/worker_pool.c:25-39 | While init, dispatch or shutdown is in progress some thread can step without a spurious wakeup. |
| WorkerPool.StepsDecrease | cart/src/worker_pool.c:19-49 | Every step of any thread lowers a bound on the steps left in the call. |
| WorkerPool.CallsReturn | cart/src/worker_pool.c:51-163 | Under every schedule a call takes at most a stated number of steps between events from outside. |
| Runtime.CartRuntime.Init | cart/src/runtime.c:15-34 | Accepts exactly the usable arguments, sets every field, and touches nothing when it refuses. |
| Runtime.CartRuntime.SelectScene | cart/src/runtime.c:64-83 | Frame number, hold expiry and guarded scene selection are the value-level step. |
| Runtime.CartRuntime.KeepDeadline | cart/src/runtime.c:85-102 | Sleep, deadline and dropped counter, both overflow refusals included, are the value-level step. |
| Runtime.CartRuntime.TickAt | cart/src/runtime.c:53-103 | A tick is the value-level tick and fails exactly when that one is refused. |
| Runtime.CartRuntime.NextAt | cart/src/runtime.c:105-123 | A next request is the value-level request, cooldown, hold and index wrap-around included. |
| Runtime.CartRuntime.PreviousAt | cart/src/runtime.c:125-144 | A previous request is the value-level request. |
| Runtime.StepRecords | cart/src/runtime.c:36-51 | An event changes the scene only when the cooldown allows it and then records its reading; it never touches the record otherwise, and a hold never changes the scene unrecorded. |
| Runtime.RunRemembers | cart/src/runtime.c:66-83 | Over every run the recorded time is that of the last change, and all changes are at least the cooldown apart. |
| Runtime.ChangesSpaced | cart/src/runtime.c:105-144 | For any clock readings in any order and any requests, k scene changes span at least (k - 1) cooldowns. |
| Runtime.FlashLimit | cart/include/cart/runtime.h:7-12 | With the shipped cooldown no second holds three scene changes. |
| Runtime.RequestRefused | cart/src/runtime.c:105-144 | A request inside the cooldown changes nothing. |
| Runtime.RequestsGo | cart/src/runtime.c:105-144 | An allowed next or previous request goes one scene on or back around the ends and holds it until the reading plus the hold, saturating. |
| Runtime.TickShows | cart/src/runtime.c:66-83 | A tick shows the held scene until the hold's end and after it the scene whose turn the clock says it is, once the cooldown allows. |
| Runtime.HoldLasts | cart/src/runtime.c:66-69 | Any number of ticks before a hold's end leave the held scene on show. |
| Runtime.TickDeadlines | cart/src/runtime.c:85-102 | The deadline is kept while ahead, moved by a period when missed by less than one, and otherwise started afresh from now with every whole period of delay dropped; the sleep ends at it. |
| Runtime.RunAccounted | cart/src/runtime.c:85-102 | Over a non-decreasing clock the deadline is accounted for by on-time advances, resyncs and dropped deadlines. |
| Runtime.DeadlinesKept | cart/src/runtime.c:64-102 | A + R + dropped <= frame <= A + 2R + dropped; the deadline is in (now, now + period]; the sleep is positive, at most a period and ends at the deadline; the second overflow guard is never the one that refuses. |
| Runtime.RefusedForever | cart/src/runtime.c:85-102 | Once a tick is refused, on a clock not going back behind it every later tick is refused and deadline and dropped counter stand still, so all successful ticks come before. |
| Runtime.TickOnSchedule | cart/src/runtime.c:71-83 | A tick at most a gap after the previous one keeps the guarded scheduler on the stateless schedule. |
| Runtime.AttractSchedule | cart/src/runtime.c:71-83 | Without requests, with ticks at most g apart and a scene period of at least cooldown + g, every tick ends on scene (elapsed / period) mod count. |
| Runtime.AttractFromInit | cart/src/runtime.c:15-83 | From the arguments of init: after regular ticks the scene is the number of whole scene periods since the origin modulo the scene count. |
| Runtime.PreviousUndoesNext | cart/src/runtime.c:105-144 | Previous and next requests undo each other if and only if the index sum formed fits a size_t. |
| Canvas.GetRgba | cart/src/canvas.c:52-57 | Unpacking a packed colour returns the clamped channels; the result is opaque. |
| Canvas.Unpack | cart/src/canvas.c:68-73 | A pixel is its three channels and its alpha byte. |
| Canvas.BlendedBetween | cart/src/canvas.c:74-78 | A mixed channel stays between its ends for weights 0..256. |
| Canvas.BlendedFloor | cart/src/canvas.c:74-78 | A mixed channel is the interpolation in 256ths rounded down. |
| Canvas.BlendedMoves | cart/src/canvas.c:74-78 | Raising the weight moves a channel toward the target by at most the rise. |
| Canvas.MixChannel | cart/src/canvas.c:59-79 | Every channel of a mix is the interpolation and the clamp never engages. |
| Canvas.MixEnds | cart/src/canvas.c:59-79 | Mixing by 0 or 256 returns the end pixel if and only if it is opaque. |
| Transition.CartTransition.Begin | cart/src/transition.c:11-21 | A fade starts at step 0 with unrendered sources, active exactly when the scenes differ. |
| Transition.CartTransition.Advance | cart/src/transition.c:28-35 | An active fade moves one step and ends after the fifteenth. |
| Transition.EaseWeight | cart/src/transition.c:53-77 | The fixed-point smoothstep yields the tabulated weights at every step. |
| Transition.WeightStep | cart/src/transition.c:53-77 | The weight runs from 0 to 256, never falls, and rises by at most 26 a step. |
| Transition.WeightNearSmoothstep | cart/src/transition.c:48-77 | Every weight is within one of 256 (3 t^2 - 2 t^3) at t = step / 15. |
| Transition.Blend | cart/src/transition.c:79-100 | The destination becomes the blend of the two images, which are untouched. |
| Transition.FadeIsGradual | cart/src/transition.c:53-100 | For any two images every channel stays between its ends, moves only toward the target and changes by at most 26 levels between adjacent steps. |
| Transition.ShortcutsAgree | cart/src/transition.c:88-99 | The copy shortcuts agree with per-pixel mixing if and only if the copied image is opaque. |
| DisplayLoop.IterationShows | cart/src/pstv-demo-cart.c:264-285 | An iteration shows what the loop's state expects and leaves a state all of whose next frames may follow. |
| DisplayLoop.NoHardCuts | cart/src/pstv-demo-cart.c:228-305 | Over every run, a steady scene is followed only by itself or step 0 of a fade from it, a fade step only by the next step of the same fade with the same endpoints, and the last step by its target or a fade from it. |
| DisplayLoop.FadeRunsThrough | cart/src/pstv-demo-cart.c:264-285 | A fade shows all its steps in order from endpoints sampled once. |
| DisplayLoop.ShownNumbers | cart/src/pstv-demo-cart.c:264-285 | Of every run, a steady frame and the first frame of a fade carry the whole frame periods elapsed at their own iteration's first reading. |
| DisplayLoop.FadeNumbers | cart/src/pstv-demo-cart.c:268-282 | Every frame of a fade carries the frame number of the iteration that opened it, as many iterations back as it has steps. |
| DisplayLoop.RequestsTaken | cart/src/pstv-demo-cart.c:237-258 | A press of next or previous moves one scene on or back and holds it 8 s, a signal moves on and holds 3600 s, and nothing else moves the scheduler after the tick. |
| DisplayLoop.QuitEnds | cart/src/pstv-demo-cart.c:249-250 | The iteration that takes a quit is the last to show a frame. |
| DisplayLoop.FadeStartsApart | cart/src/pstv-demo-cart.c:264-285 | Fade starts are at least 15 frames apart. |
| DisplayLoop.DisplayConverges | cart/src/pstv-demo-cart.c:264-285 | Once the scheduled scene stays put it is on display, with no fade, within 29 iterations and remains there. |
| DisplayLoop.FadeFramesClose | cart/src/pstv-demo-cart.c:276-285 | Inside a fade the next frame is the fade's next picture, within 26 levels per channel; a fade opens on the outgoing scene and heads for the incoming one, both as sampled. |
| DisplayLoop.FadeExitIsDrift | cart/src/transition.c:48-52 | The frame after a fade's last step differs from where the fade was heading by exactly the target scene's drift since it was sampled, and from the last step by that drift give or take three levels. |
| DisplayLoop.EveryStepBounded | cart/src/pstv-demo-cart.c:264-285 | Every step between neighbouring frames: within 26 levels inside a fade, within three of the target's drift at its exit, exactly the scene's own drift everywhere else, fade entries included. |
| SceneFade.FadeExitCanJump | cart/src/transition.c:48-52 | With the six sine-table entries it looks up, a fade into the candy scene sampled on frame 0 is followed by a frame whose red differs by at least 171 levels at column 221 of row 53. |
| DisplayLoop.SchedulerCanMove | cart/src/pstv-demo-cart.c:233-258 | At an iteration's first reading some signal or press moves the scheduler if and only if the cooldown since its last change is over. |
| DisplayLoop.MovesExactly | cart/src/pstv-demo-cart.c:228-305 | On readings that never go back, some input moves the scheduler while the given iterations last, second ticks included, if and only if the cooldown since its last change is over at the last one's first reading. |
| DisplayLoop.FadeLasts | cart/src/pstv-demo-cart.c:276-282 | A fade in flight is in flight for exactly as many iterations as it has steps left. |
| DisplayLoop.CrossedExactly | cart/src/pstv-demo-cart.c:259-265 | Some input moves the scheduler off a fade's target before the fade's last look at it if and only if the fade's fifteenth iteration is first read with the cooldown since the last change over. |
| DisplayLoop.QuietLasts | cart/src/pstv-demo-cart.c:228-305 | Iterations without requests run as long as the clock is a frame period short of its 64-bit end. |
| DisplayLoop.SlowFramesMoveMidFade | cart/src/pstv-demo-cart.c:259-265 | A concrete run in which the scheduler moves under a fade in flight. |
| DisplayLoop.CartDisplay.RenderSceneInto | cart/src/pstv-demo-cart.c:115-122 | The scene lands in the given buffer and the canvas pointer is back afterwards. |
| DisplayLoop.CartDisplay.BeginFade | cart/src/pstv-demo-cart.c:264-275 | A fade begins exactly when the scene moved and none is active, with both endpoints cached at the current frame. |
| DisplayLoop.CartDisplay.Show | cart/src/pstv-demo-cart.c:276-285 | The low buffer holds exactly the frame the value-level loop shows. |
| DisplayLoop.CartDisplay.Iterate | cart/src/pstv-demo-cart.c:228-305 | One iteration over the objects is one value-level iteration and leaves its picture in the buffer. |
| InputNormalize.Edges | cart/src/input_normalize.c:19-52 | The dead zone lies strictly inside the range, so no divisor is zero. |
| InputNormalize.NormalizeRange | cart/src/input_normalize.c:19-52 | Readings are in -100..100, +100 at the maximum and, from a span of 2, -100 at the minimum. |
| InputNormalize.NormalizeMonotone | cart/src/input_normalize.c:19-52 | The reading never falls as the raw value rises. |
| InputNormalize.NormalizeOdd | cart/src/input_normalize.c:19-52 | On an even span the reading is odd about the centre. |
| InputNormalize.ReadingIs | cart/src/input_normalize.c:38-51 | With the centre and half dead zone fixed by their bounds, the dead zone reads 0 and outside it the reading is the percentage of the way to the end rounded toward 0. |
| InputNormalize.SpanExact | cart/src/input_normalize.c:38-51 | The 32-bit span is the true span if and only if it fits, and the 64-bit products stay in range. |
| InputNormalize.Calibrated | cart/src/input_evdev.c:230-245 | Calibration keeps the device's range and always supplies a dead zone in 15..50. |
| InputNormalize.DeadzoneFromFlat | cart/src/input_evdev.c:229-244 | The dead zone is twice the flat value as a percentage of the span rounded down, if above 15 and at most 50, else 15, wherever the products fit. |
| InputNormalize.DeadzoneDefault | cart/src/input_evdev.c:229-244 | Without a flat value or a proper range the dead zone is 15. |
| InputPlan.SortStable | cart/src/input_evdev.c:286-302 | The plan is ordered by rank descending then number ascending, and equal candidates keep their order. |
| InputPlan.SortPermutes | cart/src/input_evdev.c:286-302 | The plan holds the same candidates. |
| InputPlan.PlanOrder | cart/src/input_evdev.c:286-302 | Earlier in the plan means a higher rank, or the same rank and no higher number. |
| InputPlan.Plan | cart/src/input_evdev.c:286-302 | The in-place insertion sort leaves the stable order in the array and the rest of it alone. |
| InputEvents.InterruptionsIgnored | cart/src/input_evdev.c:645-646 | Interrupted reads change nothing. |
| InputEvents.IntakeBrings | cart/src/input_evdev.c:628-650 | Reads that return no more than they are asked for are taken whole and in order up to the first that would block, ends the file or fails; only the last two end the source. |
| InputEvents.ReadStores | cart/src/input_evdev.c:628-640 | A read stores exactly the beginning of what it brings that fits the room, which is at least a byte. |
| InputEvents.DecodeEncode | cart/src/input_evdev.c:618-627 | Decoding an encoded event record gives the event back, whatever its time stamp and sign. |
| InputEvents.MapKeyIs | cart/src/input_actions.c:25-51 | The action of every key code, by a table in the statement. |
| InputEvents.EmitsPresses | cart/src/input_evdev.c:542-555 | A connected source emits exactly the actions of its keys going down while synchronised, in order. |
| InputEvents.DesyncFrozen | cart/src/input_evdev.c:583-613 | While desynchronised, no event but a report changes keys, axes or the queue. |
| InputEvents.ReportResyncs | cart/src/input_evdev.c:557-581 | A report reconnects the source and asks the device once: keys are the device's if the query succeeds and unchanged otherwise, each valid readable axis is the device's and every other unchanged; nothing else moves and nothing is emitted. |
| InputEvents.DesyncExactly | cart/src/input_evdev.c:583-613 | Over any history a connected source ends desynchronised if and only if the latest drop or report is a drop. |
| InputEvents.HeldUnchanged | cart/src/input_evdev.c:542-581 | A key no moment settles stays as it was, from the start as at connect. |
| InputEvents.HeldFollowsLatest | cart/src/input_evdev.c:542-581 | Over any history, drops included, a key is held as the latest of its key events seen while synchronised and the resyncs whose key query succeeded says. |
| InputEvents.AxisUnchanged | cart/src/input_evdev.c:557-613 | A slot's raw value that no moment settles stays as it was, from the start as at connect. |
| InputEvents.AxisFollowsLatest | cart/src/input_evdev.c:557-613 | Over any history a slot's raw value is what the latest of its axis events seen while synchronised and the readable answers of resyncs while the axis is valid says; the codes of the slots are a table in the statement. |
| InputSession.SessionReassembled | cart/src/input_evdev.c:615-653 | Across any polls since connect, however reads split the bytes: while the descriptor is open the records consumed followed by the buffer are the bytes read, the records are the unsplit stream's, the buffer holds less than one, and the source is what those events make of it; a closed slot holds no bytes. |
| InputSession.SessionHeld | cart/src/input_evdev.c:542-581 | Across any polls since connect, a key is held as the latest settling moment says, or as at connect if there is none. |
| InputSession.SessionAxis | cart/src/input_evdev.c:557-613 | Across any polls since connect, a slot's raw value is as the latest settling moment says, or as at connect if there is none. |
| InputSession.PollTakes | cart/src/input_evdev.c:615-653 | A poll of a connected slot takes what the reads bring, keeps the descriptor exactly as long as they let it, and emits the presses among its events. |
| InputSession.StuckForever | cart/src/input_evdev.c:700-706 | From a desynchronised or closed slot any number of polls with any answers changes nothing. |
| InputSession.PollDesyncs | cart/src/input_evdev.c:583-653 | A poll that keeps the descriptor leaves the source desynchronised if and only if the latest drop or report among its whole records is a drop. |
| InputSession.LostExactly | cart/src/input_evdev.c:700-706 | After such a poll every future leaves the slot as it is if and only if that poll held a drop with no report behind it. |
| InputSession.ReportInNextPoll | cart/src/input_evdev.c:700-706 | A concrete drop in one poll and its report in the next: the report is never read. |
| InputEvents.QueueConserves | cart/src/input_evdev.c:518-526 | Actions returned followed by those pending are the emitted ones minus those that met a full queue, in order; never more than 8 pend. |
| InputEvents.PendingArrivals | cart/src/input_evdev.c:518-526 | Arrivals append in order up to the capacity and return nothing. |
| InputFrame.OffersReads | cart/src/input_evdev.c:675-684 | A calibrated axis normalises if and only if its range is proper, and then to a percentage. |
| InputFrame.FrameDetermined | cart/src/input_evdev.c:655-691 | The description of a frame by its sources admits exactly one frame. |
| InputFrame.TotalIsCount | cart/src/input_evdev.c:665-671 | With every open source in generation 1 the total shown is the number of connected sources. |
| InputFrame.BuildFrame | cart/src/input_evdev.c:655-691 | Each present axis is the lowest-indexed offering source's reading, in -100..100, with that owner; an absent axis has no offering source; held keys, connections and the 32-bit generation total are exact. |
| InputEngine.CartInput.Collect | cart/src/input_evdev.c:333-417 | The scan holds the first 16 admitted nodes and closes every other descriptor it opened. |
| InputEngine.CartInput.Claim | cart/src/input_evdev.c:421-453 | Each candidate gets the first free slot or is closed, the result is the exact number of slots filled, and afterwards no candidate holds a descriptor, so the final sweep is dead. |
| InputEngine.CartInput.Discover | cart/src/input_evdev.c:333-456 | Discovery fills the free slots with the planned candidates, returns exactly the smaller of their number and the free slots, leaves open slots alone, and keeps every live descriptor owned by exactly one slot. |
| InputEngine.RanksAre | cart/src/input_evdev.c:252-280 | A named gamepad ranks 2 and a keyboard 1, or the hint if that is higher; a node with neither, or no name, ranks 0. |
| InputEngine.ConnectedAs | cart/src/input_evdev.c:207-247 | A connected source has no keys held, exactly the listed, advertised and readable axes valid, and those with the device's range, value and derived dead zone. |
| InputEngine.DisconnectedAs | cart/src/input_evdev.c:528-540 | A disconnect gives up the descriptor, counts up, and forgets keys and axis values. |
| InputEngine.AdmissibleIsCapable | cart/src/input_evdev.c:333-416 | With fresh descriptors the admissible nodes are exactly the nodes that open and rank above 0, in the listing's order. |
| InputEngine.ArrivalsInOrder | cart/src/input_evdev.c:700-706 | The actions of a poll arrive in slot order. |
| InputEngine.FilledCount | cart/src/input_evdev.c:421-439 | Filling opens exactly as many slots as there are candidates and free slots for them. |
| InputEngine.AdmittedCaps | cart/src/input_evdev.c:333-416 | The candidates are all admissible nodes if there are at most 16, else the first 16. |
| InputEngine.FillGenerations | cart/src/input_evdev.c:431-436 | Filling leaves open slots alone, and a slot it fills is in generation 1. |
| InputEngine.ReconnectUnseen | cart/src/input_evdev.c:431-436 | A disconnect and a rescan into the same slot leave the shown generation total and connections as they were. |
| InputEngine.AdmittedFresh | cart/src/input_evdev.c:381-415 | Candidates hold distinct fresh descriptors and calibrated blank sources. |
| InputEngine.InitTakesBest | cart/src/input_evdev.c:462-477 | After init the occupied slots are the prefix holding the best candidates in rank-then-number order, stably; the candidates are all admissible nodes if there are at most 16, else the first 16. |
| InputEngine.PollsKeepInit | cart/src/input_evdev.c:693-718 | Polls only take away sources that init connected. |
| InputEngine.OwnerRanksBest | cart/src/input_evdev.c:682-688 | From init on, as long as no rescan fills a slot, the owner of an axis has the best rank among the sources that offer it. |
| InputEngine.OrderedOwners | cart/src/input_evdev.c:682-688 | Where open slots are ordered by rank, the owner of an axis has the best rank among the sources that offer it. |
| InputEngine.RescanKeepsRank | cart/src/input_evdev.c:421-439 | A rescan into the first free slot keeps the order if and only if the new rank fits between the open slots around it. |
| InputEngine.RescanBreaksRank | cart/src/input_evdev.c:682-688 | After a disconnect of slot 0, a candidate worse than the source left takes the slot and every axis both offer. |
| InputEngine.LesserOwnsStick | cart/src/input_evdev.c:682-688 | A concrete disconnect and rescan after which a source of rank 1 owns an axis that one of rank 2 offers. |
| InputEngine.CartInput.ConsumeEvent | cart/src/input_evdev.c:583-613 | One event changes the source, the queue and nothing else as the value-level machine does. |
| InputEngine.CartInput.HandleDisconnect | cart/src/input_evdev.c:528-540 | The descriptor is closed once, the slot is absent and its buffer empty. |
| InputEngine.CartInput.Pump | cart/src/input_evdev.c:615-653 | However reads split the bytes, the source ends as if fed the whole stream's records, the buffer holds its tail, every read asks for at least one byte and at most a buffer, and a dead source is disconnected. |
| InputEngine.CartInput.Poll | cart/src/input_evdev.c:693-718 | Every connected, synchronised source is pumped in slot order, at most one action is returned, the queue history grows by exactly the arrivals and one take, the frame shows the sources, and its generation total is their number. |
| InputEngine.CartInput.Shutdown | cart/src/input_evdev.c:498-512 | Every owned descriptor is closed exactly once and slots, buffers and queue are empty. |
| SceneRows.ScenePeriodic | cart/scenes/scene_2d_legacy.c:268-271 | For every frame number, table, scene and pixel, reducing the frame number modulo 65536 changes nothing. |
| SceneRows.WeightsInRange | cart/scenes/scene_2d_legacy.c:43-46 | Every weight handed to the mixer is in 0..256. |
| SceneRows.CandyAt | cart/scenes/scene_2d_legacy.c:138-148 | The C-int computation never overflows and is the unbounded one. |
| SceneRows.CheckerAt | cart/scenes/scene_2d_legacy.c:150-159 | The C-int computation, exclusive or included, never overflows and is the unbounded one. |
| SceneRows.BubblesAt | cart/scenes/scene_2d_legacy.c:161-172 | The centres computed once and the accumulated field never overflow and give the unbounded shade. |
| SceneRows.RibbonsAt | cart/scenes/scene_2d_legacy.c:174-185 | The C-int computation with later stripes over earlier ones is the unbounded one. |
| SceneRows.ChromeAt | cart/scenes/scene_2d_legacy.c:187-200 | The C-int computation with truncating division is the unbounded one. |
| SceneRows.SugarAt | cart/scenes/scene_2d_legacy.c:202-210 | The C-int computation never overflows and is the unbounded one. |
| SceneSamples.SceneSample | cart/scenes/scene_2d_legacy.c:280-289 | Each scene number draws its own scene: one worked pixel of each on a sawtooth table. |
| SceneSamples.CandySample | cart/scenes/scene_2d_legacy.c:138-148 | Worked pixels of the candy scene on a sawtooth table. |
| SceneSamples.CheckerSample | cart/scenes/scene_2d_legacy.c:150-159 | Worked pixels of the checker scene, one of each colour pair. |
| SceneSamples.BubblesSample | cart/scenes/scene_2d_legacy.c:161-172 | A worked pixel inside the bubbles' field, all seven centres included. |
| SceneSamples.BubblesFarSample | cart/scenes/scene_2d_legacy.c:161-172 | A worked pixel outside the field. |
| SceneSamples.RibbonsSample | cart/scenes/scene_2d_legacy.c:174-185 | Worked pixels of the background and of both ribbons. |
| SceneSamples.ChromeSample | cart/scenes/scene_2d_legacy.c:187-200 | Worked pixels of the sky, the floor left and right, a horizon line and the centre line. |
| SceneSamples.SugarSample | cart/scenes/scene_2d_legacy.c:202-210 | A worked pixel of the sugar scene. |
| SceneRows.RenderRows | cart/scenes/scene_2d_legacy.c:273-294 | The rows asked for, and no others, hold the scene on the full frame number; an unknown scene draws nothing. |
| SceneRows.DrawnJoins | cart/scenes/scene_2d_legacy.c:138-210 | Drawing adjacent bands in either order is drawing their union. |
| SceneRows.PoolDrawsScene | cart/src/pstv-demo-cart.c:66-100 | In every run of the pool, a completed scene dispatch leaves what one call over all rows draws. |
| FbOwner.BindOnlyWhileHeld | toolkit/examples/vita-dashboard/src/fb_owner.c:249-353 | Over every call sequence and failure pattern the console's bind differs from its first value if and only if it was bound, a successful probe could read the node, and an acquire has succeeded with no release since; without such a probe it is never written; a released owner has restored it. |
| FbOwner.WritesExactly | toolkit/examples/vita-dashboard/src/fb_owner.c:249-353 | A successful acquire writes false exactly once if the console was found bound and nothing otherwise, a release writes true exactly while it is displaced, and no other call writes the bind. |
| FbOwner.AcquireExactly | toolkit/examples/vita-dashboard/src/fb_owner.c:249-267 | After a successful probe an acquire succeeds if and only if the console was not found bound or the write works, and leaves it unbound if it was found bound. |
| FbOwner.SmoothSession | toolkit/examples/vita-dashboard/src/fb_owner.c:132-353 | From any start and any accepted geometry, probe, acquire, frame and release all succeed when nothing fails, with the frame on the screen and counted and the console displaced in between and restored. |
| FbOwner.ProbeAccepts | toolkit/examples/vita-dashboard/src/fb_owner.c:132-232 | Where no product wraps, the probe accepts exactly non-zero sizes, a depth in whole bytes, a stride, as reported or else packed, that covers a row, and a frame of at most 64 MiB the target takes; it has then read exactly those and the bind. |
| FbOwner.ProbeRefuses | toolkit/examples/vita-dashboard/src/fb_owner.c:137-149 | Without a readable size or depth, or a second time, the probe fails. |
| FbOwner.MisuseExactly | toolkit/examples/vita-dashboard/src/fb_owner.c:251-301 | Calls out of order are hard faults that touch nothing; a bad frame is refused and harms nothing; a framebuffer that cannot be opened or sought is a hard fault. |
| FbOwner.AlwaysRestorable | toolkit/examples/vita-dashboard/src/fb_owner.c:329-353 | After any history, a release whose bind write succeeds restores the console, and a further release changes nothing. |
| FbOwner.FailedReleaseKeeps | toolkit/examples/vita-dashboard/src/fb_owner.c:336-352 | A failed release leaves owner and bind as they were, to be retried. |
| FbOwner.DeliveredIs | toolkit/examples/vita-dashboard/src/fb_owner.c:303-317 | The write loop delivers what the device offered, up to the frame and the screen. |
| FbOwner.WriteOutcome | toolkit/examples/vita-dashboard/src/fb_owner.c:289-327 | A write succeeds if and only if the screen holds a frame and the counts up to the first error, write of nothing or end reach it; byte by byte the screen is the frame up to those counts and the old screen behind; otherwise the owner has failed. |
| FbOwner.PartialExactly | toolkit/examples/vita-dashboard/src/fb_owner.h:60-63 | A partial frame is left if and only if the frame exceeds the screen or the offered counts, the device takes something and there is a screen. |
| FbOwner.OffersSomething | toolkit/examples/vita-dashboard/src/fb_owner.c:304-317 | The device takes something if and only if its first answer that is not an interruption is a positive count. |
| FbOwner.HalfFrameShown | toolkit/examples/vita-dashboard/src/fb_owner.c:303-322 | A concrete run that leaves half a frame on the screen. |
| FbOwner.ShortScreenNeverWhole | toolkit/examples/vita-dashboard/src/fb_owner.c:199-210 | On a screen shorter than the probed frame no write of any run succeeds. |
| FbOwner.ShortScreenTorn | toolkit/examples/vita-dashboard/src/fb_owner.c:199-210 | A concrete run without any I/O error in which such a screen is accepted and left with a partial frame. |
| FbOwner.FramesCounted | toolkit/examples/vita-dashboard/src/fb_owner.c:325 | The counter is the number of complete frame writes. |
| FbOwner.NoFrameAfterFailure | toolkit/examples/vita-dashboard/src/fb_owner.c:269-327 | After a broken-down write every later write is refused and changes nothing. |
| FbOwner.FramesOnlyWhileHeld | toolkit/examples/vita-dashboard/src/fb_owner.c:275-287 | A frame is written only between acquire and release, with exactly the probed length. |
| FbOwner.GeometryExact | toolkit/examples/vita-dashboard/src/fb_owner.c:142-170 | An accepted stride covers a packed row if and only if that row is below 2^32; the frame size is stride times height if and only if that product is. |
| FbOwner.WrappedRowAccepted | toolkit/examples/vita-dashboard/src/fb_owner.c:154-165 | A concrete geometry whose wrapped row is accepted with a four-byte frame. |
| FbOwner.FramebufferOwner.ProbeCall | toolkit/examples/vita-dashboard/src/fb_owner.c:132-232 | The probe is the value-level step, every refusal included. |
| FbOwner.FramebufferOwner.AcquireCall | toolkit/examples/vita-dashboard/src/fb_owner.c:249-267 | The acquire is the value-level step. |
| FbOwner.FramebufferOwner.PushFrame | toolkit/examples/vita-dashboard/src/fb_owner.c:303-317 | The short-write loop leaves exactly the delivered beginning of the frame on the screen. |
| FbOwner.FramebufferOwner.WriteFrameCall | toolkit/examples/vita-dashboard/src/fb_owner.c:269-327 | The frame write is the value-level step. |
| FbOwner.FramebufferOwner.ReleaseCall | toolkit/examples/vita-dashboard/src/fb_owner.c:329-353 | The release is the value-level step. |
| Deploy.NothingElseTouched | tools/hardware-gate.py:163-191 | At every step of every deployment each pre-existing file but the payload and the temporary keeps its bytes. |
| Deploy.OutgoingSurvives | tools/hardware-gate.py:163-191 | Whatever fails and whatever the reads return, a payload read as at least a byte survives every step under payload.bin or its parked name. |
| Deploy.SurvivesExactly | tools/hardware-gate.py:165-184 | The payload survives every behaviour of the server after the first read if and only if that read breaks off or brings at least a byte. |
| Deploy.SurvivesHonestExactly | tools/hardware-gate.py:165-184 | Of a server whose later reads return the file, it survives if and only if the first read breaks off or brings a byte, or the upload cannot differ from it. |
| Deploy.UnreadPayloadLost | tools/hardware-gate.py:165-184 | Concrete deployments, one with the first read refused and one with it empty, that report success and have lost the payload. |
| Deploy.SuccessDeploys | tools/hardware-gate.py:184-191 | Success means the upload is in place and the temporary gone, the outgoing payload is parked if something of it was read, and all else is as before; the upload has the candidate's digest (is the candidate, absent a collision) if the final read or the readbacks return the file. |
| Deploy.DeploysExactly | tools/hardware-gate.py:163-191 | The call returns if and only if the first read does not break off, some attempt is reported and reads back with the candidate's digest after attempts that reconnect, listing and park rename work if a payload was read, the second rename works, and the last read brings the candidate's digest. |
| Deploy.SmoothDeployment | tools/hardware-gate.py:163-191 | On a server where everything goes through, from any directory, the call returns with the candidate in place, the old payload parked if it held anything, the temporary gone and the rest unchanged. |
| Deploy.ParkedNameIs | tools/hardware-gate.py:177-181 | The parked name is the fixed stem with the digest's first twelve characters, numbered from 2 past names already taken. |
| Deploy.UploadKeeps | tools/hardware-gate.py:127-160 | However the attempts go, torn uploads included, only the uploaded name changes; success means an upload, with the candidate's digest if the readbacks return the file. |
| Deploy.TriedShrinks | tools/hardware-gate.py:176-181 | Each name found taken is a new one, so the search ends. |
| Deploy.Remote.PutVerified | tools/hardware-gate.py:127-160 | The retry loop passes through exactly the value-level directories. |
| Deploy.Remote.FindParkedName | tools/hardware-gate.py:176-181 | The search ends on the first numbered name the listing does not hold. |
| Deploy.Remote.ParkAndDeploy | tools/hardware-gate.py:163-191 | The deployment passes through exactly the value-level directories. |
| Ppm.WritePpm | cart/src/canvas.c:154-173 | Writing succeeds if and only if the canvas is valid and the stream has room; what reached the stream is the file or a beginning of it. |
| Ppm.RasterAt | cart/src/canvas.c:160-171 | Byte triple (row, column) of the raster is that pixel's red, green and blue. |
| Ppm.PaddingIgnored | cart/src/canvas.c:160-166 | Canvases that agree on the visible channels have the same raster, whatever their stride padding and alpha. |
| Ppm.ReadPpm | cart/scripts/capture-flash-check.py:220-247 | The position-and-token loop computes the recursive reading, every error included. |
| Ppm.RoundTrip | cart/scripts/capture-flash-check.py:220-247 | Reading what the writer prints returns the width, the height and the exact visible bytes, for every valid canvas. |
| Ppm.CommentSkipped | cart/scripts/capture-flash-check.py:231-234 | A comment line after the magic changes nothing, whatever it says. |
| Ppm.SignedDigits | cart/scripts/capture-flash-check.py:239 | A number may carry a sign. |
| Ppm.AcceptedIsWhole | cart/scripts/capture-flash-check.py:223-247 | An accepted file begins with the magic and its raster is as long as its size says. |
| Ppm.TinyFile | cart/src/canvas.c:154-173 | The file of a one-pixel canvas, byte for byte. |
| Ppm.CutRejected | cart/scripts/capture-flash-check.py:238-246 | A written file cut anywhere before its end is rejected. |
| Ppm.ReadableExactly | cart/src/canvas.c:154-173 | The reader accepts what reached a stream if and only if the writer reported success. |

## Left out

- Worker pool: argument checks and failures of mutex, condition and barrier creation (easy error returns); n * rows must fit a C int, as the product is otherwise undefined.
- Worker pool: a row is stored in one step, since the row-local jobs never touch another worker's rows.
- Scene overlays, fonts and the generation of the sine table: the table is any 2048 entries bounded by one.
- Presentation upscale, frame-rate report, signals, mmap and the clock itself: clock readings and requests are inputs of the loop.
- Directory scanning, ioctl encodings and sysfs text in discovery: a listing is a sequence of entries with what each node answers; an unreadable directory is not modelled.
- The kernel is assumed never to hand out a descriptor that is already open.
- Node uniqueness across rescans: the code does not check for it.
- The capability tests of discovery (four buttons and two stick axes; Escape or Q) are answers of a node, not computed from its bits.
- Ranges whose span exceeds a C int: the reading is the unbounded one; the C subtraction is undefined there.
- InputEngine.CartInput.Poll: a read script is finite, so an endless stream of interruptions or data within one poll is not modelled.
- FbOwner.FramebufferOwner.PushFrame: the write script is finite, and a script that runs out counts as a write of nothing.
- FbOwner: error texts and paths, and the overflow of the frame counter after 2^31 - 1 frames.
- FbOwner: another process writing the console's bind between calls.
- Deploy: a listing is taken to be complete; the rest of the gate (boot, SSH, evidence) is not modelled.
- SceneFade.FadeExitCanJump: the picture is the scene's rows; the overlay drawn over some of their pixels is not modelled.
- Ppm: Python's limit on the number of digits int() accepts; buffering inside the C stream.
- vita-control, deploy-payload.py, vita-bench, the dashboard's drawing and the build scripts: not part of this model.
