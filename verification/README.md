# Galley's runner, in Dafny

A model of the parts of Galley that sit between GenericAgent (GA), Galley Core and the IM channels
and are hardest to get right: the WeChat message splitter, the account of messages handed over
mid-run, the run lifecycle of the bridge, two streaming filters, the WeChat run queue, the
completion reporter, the replay of the reasoning effort and the download-progress throttle.

`dafny verify dfyconfig.toml` checks everything.

## How it is built

Code that changes state step by step is a class with the source's methods, or a method with the
source's loop. Each method is proved against a function of the old state (`DoAdd`, `OpenRun`,
`FoldItem`, `Decide`, ...), one function per locked section. What the code promises is then proved
about these functions:

- over all inputs (splitter, filters),
- over all interleavings of the threads, an interleaving being a sequence of actions, each of them
  one locked section or one thing a thread does outside the lock (`*Protocol`, `*Told`, `*Hooks`, `*Events`, `*Chains`, `*Ends`, `*Progress`),
- over all sequences of ticks, calls or replays (`Reporter*`, `ReasoningEffort`, `Throttle`).

Lemmas named `...Exactly` say what these functions decide in terms of the text, the item, the channel or
the entry they are given, without naming them.

| file | what it models |
|---|---|
| `Text`, `Wrappers` | Python's string operations, optional values |
| `Splitter`, `SplitterLossless`, `SplitterBounds`, `SplitterTight`, `SplitterBalance`, `SplitterExact`, `SplitterCompose` | `split_message`, `_pieces`, `_compose` |
| `FenceFilter`, `PrintForward` | `_FenceFilter` and a progress drain; `GaPrintForwarder` |
| `Interject`, `InterjectProtocol` | `Interjections`, against GA's read, clear and hook |
| `BridgeRuns`, `BridgeProtocol`, `BridgeTold`, `BridgeHooks`, `BridgeEvents` | the run lifecycle of `Bridge`: command thread, agent thread, drains |
| `WechatRuns`, `WechatProtocol`, `WechatChains`, `WechatEnds`, `WechatProgress` | `WechatConversation`: polling thread, workers, questions and replies |
| `Reporter`, `ReporterOutcomes`, `ReporterRuns`, `ReporterSeen`, `ReporterTicks`, `ReporterInputs` | `ImReporter` |
| `ReasoningEffort`, `Throttle` | the effort replay; `ProgressThrottle` |

Fenced code blocks are those of section 4.5 of the CommonMark Spec as far as the code follows it:
up to three whitespace characters before the fence, no backtick in a backtick fence's info string,
a closing fence at least as long as the opening one and with nothing after it.

## Where the code does not do what its documentation says

Each of these is a lemma: an exact condition for the promise, a state in which it fails, or both.

- The splitter keeps its limit exactly if the fences leave room for a piece between the reopened
  opener line and the closing line (`BoundExactly`); an opener line is never shortened.
- The splitter balances every text exactly if no line is longer than half a message
  (`BalancedExactly`): an opener line one character longer can be cut where its beginning already
  opens a block, and that message is then left open (`LongLineLeavesOpen`).
- A step's end reports exactly the messages its callback put in a prompt of the run if and only if no
  text the account remembers, that holds more than those messages, is the text taken (`TakenExactly`,
  over every interleaving `ReportedIsDelivered`). Two things break that: a preamble that changes
  within a step (`PreambleChangeMisreports`), and a callback that took, for an earlier run's task or
  out of GA's own file, the same words as the run's own message, which is then reported read and lost
  (`StaleHookMisreports`). With one preamble in each step only the second is left (`SteadyReports`).
- A turn-end hook does not look at the run's generation. It completes its own, unretired run exactly
  if the generation is unchanged (`ExitIsOwnExactly`). If the run is aborted and the next one opened
  first, the hook completes the next one (`StaleHookClosesNextRun`). A user's stop reaches Core as
  aborted exactly if no hook reports an exit between the two sections of the abort
  (`StopReachesCoreExactly`); after one, the stop reaches Core as a natural exit (`StopPreempted`).
- The lines told to the user are numbered 1, 2, 3 in each step exactly if no run comes back to a step,
  no run's first line is of the step told last since the numbers were reset, and no first line after
  a reset is of the step its run was told of last (`NumberedExactly`). Late lines of an aborted task
  break the second (`CountCarriesOn`) and the third (`CountStartsOver`), though all steps go up. The
  reset takes no lock and can be lost to a line told meanwhile, which the condition covers.
- The report that a session died carries the marked answer as its final output. So an answer
  reported before, or known when the reporter was activated, goes out again exactly with a death
  whose status is not the one reported last, while no newer answer is shown (`OldAnswersExactly`,
  with inputs `DeathCarriesHistory`, `DeathRepeatsAnswer`). The baseline marks a dead session's answer
  but not its death (`BaselineLeavesDeathExactly`), so that death, settled before activation, is
  reported at the next change (`OldDeathIsDelivered`).
- A session that dies with a new answer has the answer reported but not its death
  (`DeathUnreportedExactly`, `DeathNotReported`). `reportedDeadStatus` is never cleared, so a death
  repeated after a resumption is not reported (`DeathDueExactly`, `SecondDeathNotReported`).
- An answer with 30 messages or more after it is passed over (`PassedOverExactly`), also one whose
  report was held back until its channel returned (`HeldExactly`, `HeldReportIsLost`).
- The report attempts are the session's, not the report's: an answer is given up untried exactly if
  the limit's failed turns were all for earlier reports (`GivenUpUntriedExactly`, with
  `NewerAnswerIsGivenUp`), and a death after turns for answers no longer shown (`DeathGivenUpAfter`,
  with `DeathIsGivenUp`).
- A session archived at the first activation has its last old answer delivered when it comes back
  (`ArchivedHistoryIsDelivered`).
- The reasoning-effort memo goes by `id()`: without an override the backend written to gets back what
  it carried before Galley exactly if the first replay that took the id this one took had seen the
  same carried (`RestoredExactly`). A new backend with a reused id loses what the user set on it
  (`ReusedIdOverwrites`); the pin that should prevent reuse lives in a `GaSession` that is made anew
  on every access. And a replay looks the live backend up anew in each of its steps: if GA makes
  another one in between, that is given the earlier one's value (`TornWriteOverwrites`), or its own
  is kept under the earlier one's id (`TornSightMisleads`).

## Model

| member | source | states |
|---|---|---|
| SplitterBalance.FenceMatchExactly | runner/im_wechat.py:99 | the matcher accepts exactly the fence lines: at most three whitespace characters, then a run of three or more of one fence character, then a rest that does not go on with it |
| SplitterExact.OpensExactly | runner/im_wechat.py:160-162 | outside code blocks a line opens the block it says if and only if it is a fence line and not a backtick one with a backtick in its rest |
| SplitterExact.ClosesExactly | runner/im_wechat.py:163-165 | inside a block a line ends it if and only if it is a fence line of its character, with a run at least as long and only whitespace after it; any other leaves the block |
| SplitterExact.InBlockExactly | runner/im_wechat.py:152-166 | a text is in a code block if and only if one of its lines opened it, outside code blocks, and no line since closes it |
| SplitterExact.SlicesExactly | runner/im_wechat.py:157-158 | a line's slices: all but the last as wide as allowed, none empty unless the line is, the separator before the first only, together the line |
| SplitterExact.PiecesOfLine | runner/im_wechat.py:155-158 | each line's slices have the code block that the lines before it end in |
| Splitter.CutPieces | runner/im_wechat.py:152-166 | the loop yields each line's slices with the code block the line starts in |
| Splitter.CutLine | runner/im_wechat.py:157-158 | one line cut every `width` characters, an empty line giving one empty piece |
| Splitter.Cut | runner/im_wechat.py:184-211 | the chosen cut is everything left if that fits, else the latest of the best tier among all cuts that fit, else one piece |
| Splitter.CutUnique | runner/im_wechat.py:184-211 | that description determines the cut |
| Splitter.CutPrefers | runner/im_wechat.py:170-177 | the docstring's order of preference, cut by cut: no fitting cut that fills a third is passed over for an earlier one of its kind or for one of a worse kind |
| Splitter.CutLatest | runner/im_wechat.py:170-177 | with no cut at a line end that fills a third, the latest cut that fits; with none that fits, one piece |
| Splitter.ChooseCut | runner/im_wechat.py:187-211 | the incremental sizes, the four best cuts and the early stop find that same cut |
| Splitter.SkipBlankPieces | runner/im_wechat.py:221-223 | skips exactly the blank pieces outside code blocks that follow a cut |
| Splitter.CutMessages | runner/im_wechat.py:180-224 | the outer loop ends, and its parts are the mended cutouts one after the other |
| Splitter.SplitMessage | runner/im_wechat.py:169-224 | the whole of `split_message`, for every text and limit |
| SplitterExact.DressExactly | runner/im_wechat.py:212-218 | a message is the opener line, if it starts in a block, the slice, and the marker on its own line, if it is cut in one, else without whitespace at its end |
| SplitterExact.SizesExactly | runner/im_wechat.py:183-197 | the sizes the cuts are judged by are those of the text so far and of the message |
| SplitterExact.SplitExactly | runner/im_wechat.py:178-224 | the messages are those of runs of pieces, each cut as described, the next starting at the first piece that shows something or is in a block, but for messages that show nothing |
| SplitterLossless.SplitLosesNothing | runner/im_wechat.py:169-224 | for every text and limit: each message shows one slice of the text between the opener line and the marker that mend it, and the slices make up the stripped text but for whitespace between them, so its non-whitespace characters are kept, in order, each once |
| SplitterBounds.CutFits | runner/im_wechat.py:184-211 | with fences that fit, the `a + 1` fallback is never needed: the chosen cut is within the limit |
| SplitterBounds.SplitBounded | runner/im_wechat.py:169-224 | with fences that fit, every message is within the limit |
| SplitterTight.BoundExactly | runner/im_wechat.py:162-218 | for each fence: all texts with that fence alone are split within the limit if and only if the fence leaves room for a piece |
| SplitterBalance.SplitBalanced | runner/im_wechat.py:152-224 | with no line over half a message, each message but the last, read on its own, ends outside code blocks, the last ends as the text does, and each cut code block is reopened by the next message with the same opener |
| SplitterBalance.LongLineLeavesOpen | runner/im_wechat.py:156-158 | for every limit from 6 on an opener line one character over half the limit is cut so that the first of several messages is left open |
| SplitterBalance.BalancedExactly | runner/im_wechat.py:152-224 | for every limit from 6 on: all texts with no line over a given width are split into balanced messages if and only if that width is at most half the limit |
| SplitterCompose.Compose | runner/im_wechat.py:227-235 | `_compose`: the notice in the first part, the last line in the last, empty parts dropped |
| SplitterCompose.ComposeBounded | runner/im_wechat.py:227-235 | with room left for the body and its fences, no part is over the channel's limit and none is empty |
| SplitterCompose.ComposeKeeps | runner/im_wechat.py:227-235 | what is visible is the notice, then the split body, then the last line |
| SplitterCompose.FramedExactly | runner/im_wechat.py:232-234 | each part is its message, the first after the notice and a blank line, the last before a blank line and the last line |
| SplitterCompose.ComposeShort | runner/im_wechat.py:227-235 | what fits 4000 characters with notice and last line is one part |
| SplitterCompose.ComposeEmpty | runner/im_wechat.py:227-235 | an empty body leaves the notice and the last line, if there are any |
| SplitterCompose.SplitShort | runner/im_wechat.py:178-224 | a text that fits is one message, the text stripped |
| FenceFilter.FenceFilter.FeedText | runner/workbench_bridge.py:521-552 | the body of `feed`, for any marker: output, carry and fence state are those of one pass |
| FenceFilter.FenceFilter.Feed | runner/workbench_bridge.py:513-552 | what one delta emits, the carry and the fence state are those of one pass over carry and delta |
| FenceFilter.FenceFilter.ScanMarkers | runner/workbench_bridge.py:523-533 | the loop over complete markers loses nothing of the pass and leaves no marker behind it |
| FenceFilter.FenceFilter.SuffixLen | runner/workbench_bridge.py:537-546 | holds back the longest end that is a proper start of the marker |
| FenceFilter.FenceFilter.Flush | runner/workbench_bridge.py:554-560 | gives out the carry outside a fence, drops it inside, and empties it |
| FenceFilter.FedInTwo | runner/workbench_bridge.py:513-552 | feeding a text cut anywhere is feeding it at once |
| FenceFilter.ChunksDoNotMatter | runner/workbench_bridge.py:513-552 | output and state after any chunking are those of one pass over the whole stream |
| FenceFilter.FedIsOutside | runner/workbench_bridge.py:477-560 | one pass, flushed, is every second piece of the text split on the marker |
| FenceFilter.FedState | runner/workbench_bridge.py:507-552 | after any text `inside` is the parity of the markers gone by, and `carry` the held end of what follows the last one |
| FenceFilter.HeldEndIsLongest | runner/workbench_bridge.py:537-546 | that held end is the longest end of the text that is a proper start of the marker |
| FenceFilter.HoldsBackOnlyWhatItMust | runner/workbench_bridge.py:537-546 | of what is held back outside fences, one continuation shows all and another none |
| FenceFilter.DrainTask | runner/workbench_bridge.py:1361-1475 | the deltas a drain sends for a task are together the stream outside fences, none of them empty |
| PrintForward.BufferDecides | runner/ga_print_forward.py:127-137 | the first 4000 characters decide about a line as the whole line would |
| PrintForward.StaysOut | runner/ga_print_forward.py:81-84 | a start that rules a line out rules out every continuation |
| PrintForward.GaPrintForwarder.Write | runner/ga_print_forward.py:104-111 | after any write, the target has the report of the complete lines of all that was written |
| PrintForward.GaPrintForwarder.Take | runner/ga_print_forward.py:127-133 | a piece of a line changes nothing of the target and keeps what is buffered in step with the line |
| PrintForward.GaPrintForwarder.EndLine | runner/ga_print_forward.py:135-147 | a newline completes the line, which is forwarded scrubbed and cut, or not at all |
| PrintForward.ForwardAll | runner/ga_print_forward.py:87-147 | for every splitting into writes the target is the line-by-line report of the whole output |
| PrintForward.ReportExactly | runner/ga_print_forward.py:135-147 | the target has one entry for each complete line that starts with a forwarded prefix, in order: the scrubbed text of its first 4000 characters without carriage returns at the end, whole up to 1000 characters, else 999 and an ellipsis, and a newline |
| PrintForward.NothingElseGoesOut | runner/ga_print_forward.py:135-147 | two outputs whose forwarded lines scrub to the same are the same to the target |
| Interject.Interjections.Add | runner/interject.py:57-69 | account and cell become what `DoAdd` says; the ids returned are those not taken before |
| Interject.Interjections.StepEnded | runner/interject.py:71-90 | account, cell and read ids are those of `DoStepEnded` |
| Interject.Interjections.FindWritten | runner/interject.py:78-81 | the search from the latest write back finds the latest one with the text |
| Interject.Interjections.TakeUnread | runner/interject.py:92-105 | everything unread is returned and the account starts over |
| Interject.Interjections.Arm | runner/interject.py:107-118 | everything unread is written to the cell and remembered with its ids, or the cell cleared |
| InterjectProtocol.AddKeepsAccount | runner/interject.py:57-69 | accepted ids stay read ids followed by unread ones, distinct, and the texts written stay growing starts of what is unread |
| InterjectProtocol.StepEndedKeepsAccount | runner/interject.py:71-90 | the same for a step's end, with the ids read moved over |
| InterjectProtocol.StepEndedReads | runner/interject.py:71-90 | the ids picked are the first of the unread list, and exactly they are taken off it |
| InterjectProtocol.EveryInterleaving | runner/interject.py:57-118 | from the start, under every interleaving of `add` with GA's read, clear and hook, also of earlier runs' tasks, and the run's end: per run, ids reported then returned are the accepted ones in order, each once |
| InterjectProtocol.EndRunSettles | runner/interject.py:92-105 | a run's end returns what was not reported and leaves nothing of the account in `intervene` |
| InterjectProtocol.NothingStaysWiped | managed-ga/code/ga.py:593-598 | after the hook of a step the loop goes on from, `intervene` holds every unreported message, also those wiped between GA's read and its clear |
| InterjectProtocol.LeavesOthersAlone | runner/interject.py:92-114 | with nothing unread the account has taken out what it wrote, and leaves a text from elsewhere in `intervene` |
| InterjectProtocol.TextsGrow | runner/interject.py:107-126 | with one preamble, each text written within a step is a proper start of the next |
| InterjectProtocol.LatestExactly | runner/interject.py:78-81 | the write GA read is found if and only if no later write has its text |
| InterjectProtocol.TakenExactly | runner/interject.py:76-90 | at the end of any step, of the run's own task or an earlier one's, with any preamble and any injected text: the ids picked are those of the messages taken for the run if and only if no text the account remembers, that holds more, is the one taken |
| InterjectProtocol.CallbackExactly | managed-ga/code/ga.py:593-598 | where GA's callback is after every action: it reads what `intervene` holds, or its file if that is empty, clears, and calls the hook, whatever happens to the run meanwhile |
| InterjectProtocol.SteadyIsPlain | runner/interject.py:76-84 | with one preamble in the step that condition is: messages of the run were taken, or no text remembered is the injected one |
| InterjectProtocol.ReportedIsDelivered | runner/interject.py:71-90 | over every interleaving from the start: every step reports exactly the messages put in the run's prompts if and only if that condition holds at every hook, and then each run's reported ids are the delivered ones |
| InterjectProtocol.SteadyReports | runner/interject.py:71-90 | over every interleaving with one preamble per step: every report is true if and only if no callback that took nothing for the run took a text that is also written in it |
| InterjectProtocol.PreambleChangeMisreports | runner/interject.py:66-67 | with a preamble changed between GA's read and its hook, a message is reported read that GA did not take |
| InterjectProtocol.StaleHookMisreports | runner/interject.py:76-84 | with a run's end between GA's clear and its hook, the next run's message in the same words is reported read and lost, with no preamble at all |
| BridgeRuns.Bridge.ReturnUnreadInterjections | runner/workbench_bridge.py:1487-1496 | the new state is the old with the unread messages returned, in one event if there are any |
| BridgeRuns.Bridge.StartRun | runner/workbench_bridge.py:1828-1850 | refused with an error while a run is open, else left-over messages are returned, the generation goes up and the run is open |
| BridgeRuns.Bridge.SlashDone | runner/workbench_bridge.py:1428-1449 | a slash command's `done` closes the run of its own generation only |
| BridgeRuns.Bridge.CloseRunWithoutExit | runner/workbench_bridge.py:1529-1574 | the safety net: error, returned messages, completion, for its own generation only |
| BridgeRuns.Bridge.AbortRetire | runner/workbench_bridge.py:1897-1898 | the generation goes up and the run stays open |
| BridgeRuns.Bridge.AbortClose | runner/workbench_bridge.py:1900-1915 | an open run is completed as aborted |
| BridgeRuns.Bridge.ResetTold | runner/workbench_bridge.py:1853 | the numbering starts over with every task put, and nothing else changes |
| BridgeRuns.Bridge.SendToldLine | runner/workbench_bridge.py:1214-1238 | a line goes out, numbered, only while a run is open |
| BridgeRuns.Bridge.HandleInterject | runner/workbench_bridge.py:1507-1527 | messages are added to an open run, else handed straight back |
| BridgeRuns.Bridge.OnTurnEndAccount | runner/workbench_bridge.py:1660-1662 | the step's end of the account, as the hook calls it |
| BridgeRuns.Bridge.OnTurnEndEvents | runner/workbench_bridge.py:1664-1695 | the step's event, then the delivery of what it read |
| BridgeRuns.Bridge.OnTurnEndExit | runner/workbench_bridge.py:1710-1739 | an exit completes an open run, whichever it is |
| BridgeEvents.EventsExactly | runner/workbench_bridge.py:1487-1915 | every locked section of every thread adds exactly these events, in this order: errors, steps' ends, deliveries, returned and refused messages, completions |
| BridgeEvents.RunExactly | runner/workbench_bridge.py:863-870 | what opens and closes a run and raises the generation, and nothing else does |
| BridgeEvents.PlacesExactly | runner/workbench_bridge.py:1613-1915 | where each thread is after every action |
| BridgeEvents.AccountExactly | runner/workbench_bridge.py:1487-1527 | what becomes of the account and of `intervene` with every action |
| BridgeEvents.StartIsSteps | runner/workbench_bridge.py:1828-1850 | the sections a run starts with, one after the other, are the start the method makes at once |
| BridgeEvents.NoMessageLost | runner/workbench_bridge.py:1507-1527 | over every interleaving each message handed over is reported read, or handed back, at once or at its run's end, or unread in the open run |
| BridgeProtocol.StepKeeps | runner/workbench_bridge.py:863-870 | every locked section of every thread keeps: the log is possible, the account holds what the open run accepted and no step read, something is left that will end the run, no drain has a generation to come |
| BridgeProtocol.RunKeeps | runner/workbench_bridge.py:669-685 | so does every interleaving |
| BridgeProtocol.SweepFindsNothing | runner/workbench_bridge.py:1841-1843 | before a run opens nothing is returned: the run before has settled its messages |
| BridgeProtocol.EveryRunCompletesOnce | runner/workbench_bridge.py:669-675 | in every reachable state completions are openings minus the open run, and none opens over an open one |
| BridgeProtocol.EveryCompletionSettles | runner/workbench_bridge.py:1487-1496 | at every completion in every reachable log: a run was open, its accepted messages are the read ones followed by those returned in the event just before, and a drain's completion is of its own run, not retired |
| BridgeProtocol.DrainClosesOnlyItsRun | runner/workbench_bridge.py:675-685 | a drain's `done` completes a run if and only if the open run is its own and no abort has retired it, else it changes nothing |
| BridgeProtocol.NothingLeftOpen | runner/workbench_bridge.py:1529-1544 | once every drain has seen its `done` and no command is halfway, no run is open |
| BridgeProtocol.AttachModeWritesNothing | runner/interject.py:27-31 | where no message may be taken, no interleaving makes the account write `intervene`: it keeps what it held until GA clears it |
| BridgeHooks.SameGenSameRun | runner/workbench_bridge.py:675-685 | over every interleaving the generation never falls, and as long as it is the same the run is the same |
| BridgeHooks.StaleHookClosesNextRun | runner/workbench_bridge.py:1710-1714 | from every reachable state with no command halfway and a hook about to report the exit of an open run: abort and the next message in between, and the hook completes the next run |
| BridgeHooks.ExitIsOwnExactly | runner/workbench_bridge.py:1710-1714 | over every interleaving, with an abort halfway or not: a hook's exit completes the run that was open when it began, not retired, if and only if the generation has not changed since, the check the hook does not make |
| BridgeHooks.HookInFlight | runner/workbench_bridge.py:1613-1714 | a state with a hook about to report its exit is reached by one message and the hook of its only step |
| BridgeHooks.StopReachesCoreExactly | runner/workbench_bridge.py:1890-1915 | whatever the threads do between the two sections of an abort, the run is completed as aborted if and only if no hook reports an exit between them |
| BridgeHooks.StopPreempted | runner/workbench_bridge.py:1890-1915 | with a hook's exit between the two sections the stopped run is completed as exited, and the abort completes nothing |
| BridgeHooks.ForgottenOnlyAtExit | runner/workbench_bridge.py:1660-1739 | over every interleaving: while the account has forgotten the text that is in `intervene`, the hook that made it forget is still to report its exit, and that empties `intervene`, whichever run is open |
| BridgeTold.ToldOfRun | runner/workbench_bridge.py:1214-1238 | over every interleaving `_told_in_step` has the step of the last line since the reset and, while the numbers are right, its count in its run |
| BridgeTold.NumberedExactly | runner/workbench_bridge.py:1214-1238 | over every interleaving, whichever task the lines come from: each step's lines are numbered 1, 2, 3 if and only if no run comes back to a step, no run's first line is of the step told last since the reset before, and no first line after a reset is of the step its run was told of last |
| BridgeTold.StepsAreNumbered | runner/workbench_bridge.py:688-691 | over every interleaving in which each run's steps go up: they are if and only if the last two conditions hold, and so they are if no run is told anything before its task is put |
| BridgeTold.GoingUpIsNoReturn | runner/workbench_bridge.py:1214-1238 | steps that never go down are never come back to |
| BridgeTold.OwnLinesAreRight | runner/workbench_bridge.py:1850-1853 | where runs are told of by their own task only, no line carries on or starts over |
| BridgeTold.CountCarriesOn | runner/workbench_bridge.py:1214-1238 | after an abort a late line of the aborted task makes the next run's first line number 2 |
| BridgeTold.CountStartsOver | runner/workbench_bridge.py:1850-1853 | after an abort a late line of the aborted task, then the reset for the new one: two lines of one step of one run are number 1 |
| WechatRuns.WechatConversation.FindHead | runner/im_wechat.py:660-663 | the first listed run not stopped |
| WechatRuns.WechatConversation.FindRunning | runner/im_wechat.py:665-672 | the head, if it runs and GA is on its task |
| WechatRuns.WechatConversation.Register | runner/im_wechat.py:622-654 | the run joins the list, takes the pending question if nobody of its user waits for one, and a worker is started if there is none |
| WechatRuns.WechatConversation.StopRunning | runner/im_wechat.py:526-529 | only the running run is marked stopped |
| WechatRuns.WechatConversation.AdoptQuestion | runner/im_wechat.py:711-716 | the head takes the question it waited for, if there is one |
| WechatRuns.WechatConversation.TakeItem | runner/im_wechat.py:726-742 | an item counts only while the run is queued or running; `done` ends it with an answer or a question |
| WechatRuns.WechatConversation.RetireRun | runner/im_wechat.py:751-755 | the run leaves the list |
| WechatRuns.WechatConversation.FailRun | runner/im_wechat.py:757-763 | a run fails unless it was stopped |
| WechatRuns.WechatConversation.ForgetQuestions | runner/im_wechat.py:545 | no question is pending any more, and nothing else changes |
| WechatRuns.WechatConversation.NextRun | runner/im_wechat.py:684-696 | the worker gets the head, or leaves when the list is empty and no indicator is up |
| WechatRuns.WechatConversation.Leave | runner/im_wechat.py:702-704 | a leaving worker takes only itself out of `_worker` |
| WechatProtocol.StepKeeps | runner/im_wechat.py:622-765 | every action of polling thread and workers keeps: who has each ended run in hand, how often each was posted about, the order of posts, one worker |
| WechatProtocol.OneMessageEach | runner/im_wechat.py:679-765 | in every reachable state a run off the list has had exactly one message, a listed one at most one, and it is its receipt if it was stopped, else the answer, question or error its end calls for |
| WechatEnds.PostsExactly | runner/im_wechat.py:726-763 | over every interleaving: a question is posted if and only if its `done` item asks, an answer if and only if it does not, a receipt if and only if a command stopped the run, an error if and only if its task could not be put |
| WechatEnds.StatesExactly | runner/im_wechat.py:301-354 | in every reachable state a run is queued, running or ended as the items, commands and failures so far call for |
| WechatProtocol.EndedRunsAreInHand | runner/im_wechat.py:739-765 | no ended run stays on the list without a thread about to post about it or retire it |
| WechatProtocol.InRegistrationOrder | runner/im_wechat.py:679-682 | answers, questions and errors are posted in the order of registration |
| WechatProtocol.OneWorker | runner/im_wechat.py:649-704 | while runs are listed the thread in `_worker` is at work, and there is never a second one |
| WechatProgress.StepFalls | runner/im_wechat.py:679-765 | in every reachable state, every step of any thread but an idle poll leaves less to do or changes nothing |
| WechatProgress.QuietIsDone | runner/im_wechat.py:684-765 | in every reachable state: if no thread has a step that gets on with anything, no thread is left, no run is listed and every run has had exactly one message: the queue cannot get stuck |
| WechatProgress.Finishes | runner/im_wechat.py:679-765 | such an end is within reach of every reachable state, no more steps away than there is left to do |
| WechatProgress.EveryRunGetsItsMessage | runner/im_wechat.py:679-765 | from every reachable state, along every schedule without new messages and commands: the steps that get on with something are bounded by what was left and the polls that brought no end, and once none is left every run ever registered has had exactly one message |
| WechatChains.QuestionsTakenOnce | runner/im_wechat.py:633-644 | each question is taken by at most one run, of the same user, registered after the asking one |
| WechatChains.AnsweredInLine | runner/im_wechat.py:633-642 | in every reachable state, no run has taken a question of its user while an earlier run of that user still waits for one |
| WechatEnds.MessageExactly | runner/im_wechat.py:622-654 | what a message registers: last on the list, taking the pending question if it is plain text without files and nobody of its user waits for one, else waiting if it is such text |
| WechatEnds.WaitsExactly | runner/im_wechat.py:633-642 | a pending question stays pending, whatever the threads do, until a run of its user takes it or asks, or a command drops it |
| WechatEnds.QuestionsExactly | runner/im_wechat.py:711-742 | what is taken is the question that was pending, what is asked is pending then, and a drop leaves none |
| WechatEnds.QuestionReachesNext | runner/im_wechat.py:633-742 | after a run has asked, over every interleaving without another question of its user or a drop, the next run of that user that takes a question takes this one |
| WechatEnds.ContinueDropsExactly | runner/im_wechat.py:555-610 | `/continue` drops the pending questions if and only if it aborted GA's task and did not raise |
| WechatEnds.CommandsExactly | runner/im_wechat.py:522-557 | `/stop` and `/new` owe a receipt to the run they stop, `/new` drops the questions at once, and neither drops any later |
| WechatEnds.OwingExactly | runner/im_wechat.py:532-581 | what is left of a command: receipts posted and their runs retired, one after the other |
| WechatEnds.LookExactly | runner/im_wechat.py:684-696 | a worker gets the first run not stopped, leaves if none is listed and no indicator is up, and else stays |
| WechatEnds.WorkerGoes | runner/im_wechat.py:706-763 | where a worker goes from each place, what it posts and what it retires |
| WechatEnds.FinallyExactly | runner/im_wechat.py:701-704 | a thread's last act: it is gone, and `_worker` is empty if it was still in there |
| WechatChains.ShownStepsAreTheChains | runner/im_wechat.py:328-354 | the steps every answer, question and receipt shows are GA's turns summed over the runs of its chain |
| WechatChains.EndedForGood | runner/im_wechat.py:674-677 | no action of any thread changes a run that has ended: a stopped one stays stopped |
| WechatChains.StopTouchesOnlyTheRunningRun | runner/im_wechat.py:522-535 | `/stop` stops a run, and owes it a receipt, if and only if GA is on its task, it runs, and all listed before it are stopped |
| Reporter.FindLatestFinal | runner/im_reporter.py:168-178 | the last agent message with a final answer |
| Reporter.FindRoutingSupervisor | runner/im_reporter.py:122-165 | the two loops find the initiating message and its supervisor, or the session's |
| Reporter.RoutesToInitiator | runner/im_reporter.py:122-165 | the recipient is the supervisor of the message that started the answer, else the session's, in every case: last user message of the answer's turn, else last one before the answer, or without an answer the last one of all |
| Reporter.InitiatorStarted | runner/im_reporter.py:140-160 | the loops find that message whenever there is one |
| Reporter.ImReporter.VisitOne | runner/im_reporter.py:955-1004 | one session of a tick: the outcome and the entry after it |
| Reporter.ImReporter.DeliverReport | runner/im_reporter.py:1029-1075 | busy before the attempt limit before the turn; a turn that times out or raises is a retry |
| Reporter.ImReporter.BaselineAll | runner/im_reporter.py:1011-1025 | every candidate is marked reported and seen, and the reporter is new no more |
| Reporter.ImReporter.RunTick | runner/im_reporter.py:922-1009 | the whole tick, for every registry and listing |
| ReporterOutcomes.LatestExactly | runner/im_reporter.py:168-178 | the latest answer is the last agent message with a visible final answer |
| ReporterOutcomes.DueExactly | runner/im_reporter.py:197-208 | exactly which report is due: the last answer shown if it is not the marked one, else an unreported death |
| ReporterOutcomes.VisitExactly | runner/im_reporter.py:955-1004 | exactly what a visit does, by what is due, the recipient, the channel, its agent, the attempts and the turn, and the entry after it |
| ReporterOutcomes.ForeignExactly | runner/im_reporter.py:964-984 | a report is another process's if and only if its recipient is nobody, or unregistered and of no owned prefix; for an owned unregistered channel it is held and the entry untouched |
| ReporterOutcomes.BaselineExactly | runner/im_reporter.py:1011-1025 | what the first activation marks: the last answer shown, or else the death, and the session as seen |
| ReporterOutcomes.IdleExactly | runner/im_reporter.py:922-938 | without the command line or a channel connected and bound a tick does nothing |
| ReporterOutcomes.KeptExactly | runner/im_reporter.py:939-1009 | after a tick there are entries of exactly the listed sessions that had one or were looked at |
| ReporterOutcomes.TailExactly | runner/im_reporter.py:957-959 | what is looked at are the last 30 messages, or all |
| ReporterRuns.LatestInTail | runner/im_reporter.py:168-178 | the latest answer is among the messages shown if and only if at most 29 have followed it |
| ReporterRuns.StoryIsTrue | runner/im_reporter.py:197-208 | over any visits while the transcript grows, the entry marks the last answer settled, and counts the turns failed since then |
| ReporterRuns.AnswersGoForward | runner/im_reporter.py:197-208 | of all reports that carry an answer, of finished runs and of deaths, the answers never go back in the transcript, and a finished run's is past every one sent before and past what was known |
| ReporterRuns.OldAnswersExactly | runner/im_reporter.py:197-208 | after any visits, an answer at the mark or before goes out, again or as history, if and only if what goes out is a death whose status is not the one reported, no newer answer is shown and the marked one still is |
| ReporterRuns.NoHistory | runner/im_reporter.py:1011-1025 | over any visits after the baseline, no finished run's answer goes out that was in the transcript then, and none twice |
| ReporterRuns.BaselineLeavesDeathExactly | runner/im_reporter.py:1011-1025 | after the baseline something is due, at the next change, if and only if the session was dead and an answer was shown |
| ReporterRuns.DeathDueExactly | runner/im_reporter.py:197-208 | after any visits, a death is due if and only if the session is dead, no answer after the mark is shown and the death settled last was not of this status |
| ReporterRuns.BoundedTurns | runner/im_reporter.py:985-1004 | attempts never exceed the limit, and report turns are at most the limit per settled report plus the attempts counted |
| ReporterRuns.GivenUpUntriedExactly | runner/im_reporter.py:1034-1039 | after any visits, an answer given up was never tried if and only if all the limit's failed turns since the last settled report were for earlier answers or for a death |
| ReporterRuns.DeathGivenUpAfter | runner/im_reporter.py:1034-1039 | after any visits, when a death is given up, the limit's failed turns since the last settled report were for deaths, or for answers after the mark that are no longer shown |
| ReporterRuns.DeliveredExactly | runner/im_reporter.py:970-1000 | exactly when a report of ours is delivered, given up, or held back |
| ReporterSeen.SeenExactly | runner/im_reporter.py:188-194 | exactly which outcomes make a session count as seen |
| ReporterSeen.ForeignIsNotMarked | runner/im_reporter.py:967-974 | another process's report is never marked reported here |
| ReporterSeen.DeathUnreportedExactly | runner/im_reporter.py:298-308 | after a settled report something is still due, and unseen until the session changes, if and only if an answer was reported of a session whose death was not |
| ReporterSeen.PassedOverExactly | runner/im_reporter.py:955-963 | an unreported answer of a live session is passed over if and only if 30 messages or more have followed it |
| ReporterSeen.NoAnswerLost | runner/im_reporter.py:188-208 | after any visits: if the session counts as seen, the answer shown to the visit that last marked it seen was delivered or given up at one of the visits, or its recipient was then nobody, or unregistered and of no owned prefix |
| ReporterSeen.NoAnswerLostSince | runner/im_reporter.py:1011-1025 | the same after a baseline, whose answer counts as settled |
| ReporterSeen.HeldExactly | runner/im_reporter.py:975-991 | after any visits that found the channel away or busy, with the transcript grown: an answer is due if and only if the session looks changed and one after the mark is among the last 30 messages, and then it is the newest; a death if and only if none is and its status is not reported |
| ReporterSeen.SettledWithin | runner/im_reporter.py:985-1004 | on a channel that is ready and idle the session counts as seen, with what was due settled, within one visit more than the attempts left |
| ReporterTicks.TicksAreVisits | runner/im_reporter.py:922-1009 | over any ticks, what happens to a session's entry and what is delivered of it is what its own visits do |
| ReporterTicks.NewReporterIsQuiet | runner/im_reporter.py:1011-1025 | over any ticks of a new reporter, a session it looked at has no finished run's answer sent that was known then, and each later one at most once, in order |
| ReporterTicks.NoAnswerLostByTicks | runner/im_reporter.py:922-1009 | over any ticks: whenever a session counts as seen, the answer shown when it was last marked so was delivered or given up by one of the ticks, or its recipient was then nobody, or unregistered and of no owned prefix |
| ReporterTicks.NoAnswerLostByNewReporter | runner/im_reporter.py:922-1025 | the same of a new reporter, over its first tick and any after it, what it then saw counting as settled |
| ReporterTicks.ArchivedHistoryIsDelivered | runner/im_reporter.py:943-946 | a session archived at activation has its last answer delivered when it is back |
| ReporterInputs.DeathCarriesHistory | runner/im_reporter.py:234-237 | an answer known at activation goes out when the session dies later |
| ReporterInputs.OldDeathIsDelivered | runner/im_reporter.py:255-257 | a death settled before activation goes out, with its answer, at the session's next change |
| ReporterInputs.DeathRepeatsAnswer | runner/im_reporter.py:197-208 | an answer delivered once goes out again when the session is cancelled |
| ReporterInputs.DeathNotReported | runner/im_reporter.py:197-208 | a session that dies with a new answer counts as seen with its death still due |
| ReporterInputs.SecondDeathNotReported | runner/im_reporter.py:298-303 | a session that dies, is resumed and dies the same death has the second one not reported |
| ReporterInputs.HeldReportIsLost | runner/im_reporter.py:975-991 | a report held for a channel that is away is lost when 30 messages follow before it is back |
| ReporterInputs.NewerAnswerIsGivenUp | runner/im_reporter.py:1034-1039 | after three failed turns for one answer the next is given up without a turn |
| ReporterInputs.DeathIsGivenUp | runner/im_reporter.py:1034-1039 | after three failed turns for an answer no longer shown the session's death is given up without a turn |
| ReasoningEffort.EffortReplay.ApplyReasoningEffort | runner/workbench_bridge.py:881-925 | the replay on the live backend; what it returns is what the backend carries and what it carried before |
| ReasoningEffort.EffortReplay.SetReasoningEffort | runner/workbench_bridge.py:2026-2050 | an unknown tier changes nothing; else the override is set or cleared and replayed |
| ReasoningEffort.StepsAreApply | runner/workbench_bridge.py:901-924 | with nothing in between, the replay's three looks at the live backend are the replay at once, as the method does it |
| ReasoningEffort.SetExactly | runner/workbench_bridge.py:2026-2050 | a set of none of the seven tiers changes nothing; else the override is set or cleared, and replayed if there is a backend |
| ReasoningEffort.GaExactly | runner/ga_session.py:524-534 | what GA does to the backends, and that it never touches the bridge's part |
| ReasoningEffort.MemoIsWhatWas | runner/workbench_bridge.py:901-911 | over any sets, clears, switches, rebuilds, GA writes and steps of replays, ids reused or not: what is kept under an id is what the live backend carried at the first replay that took that id |
| ReasoningEffort.RestoredExactly | runner/workbench_bridge.py:881-925 | over any such sequence: a replay leaves a backend that refuses as it is, and gives another the override, or without one what it carried before Galley if and only if the first replay that took the same id had seen that carried; the id is its own if GA never came between |
| ReasoningEffort.ReplayRestores | runner/workbench_bridge.py:881-925 | with ids never reused and GA never between the steps of a replay: the live backend gets the override, or without one what it carried before Galley, which is its model's own value unless GA changed it |
| ReasoningEffort.ReusedIdOverwrites | runner/ga_session.py:524-548 | a sequence from the start: a backend made with the id and the value of an earlier one loses what the user then set on it |
| ReasoningEffort.TornWriteOverwrites | runner/workbench_bridge.py:911-915 | a backend made before the replay writes is given the value of the one before it, and the next replay takes that for its own |
| ReasoningEffort.TornSightMisleads | runner/workbench_bridge.py:901-910 | the value of a backend made before the replay reads it is kept under the id of the one before it, and given to the next backend with that id |
| Throttle.ProgressThrottle.ShouldEmit | core/src/app_update.rs:163-184 | emits at the first call, at every percent other than the last emitted, and after the interval |
| Throttle.PercentExactly | core/src/app_update.rs:164-166 | the percent is that of the bytes rounded down, 100 times the bytes being at most what 64 bits hold; without a total there is none |
| Throttle.EmitsExactly | core/src/app_update.rs:163-184 | a call emits if and only if none has, or 150 ms have passed since the last that did, or its percent is known and not that of the last with one |
| Throttle.EveryEventIsPaid | core/src/app_update.rs:148-185 | each event after the first uses up a percent, once each, or an interval |
| Throttle.BoundedEvents | core/src/app_update.rs:148-185 | over a download of fixed total, with bytes and clock never going back, at most 101 events and one per 150 ms of its span |

## Left out

What the proofs assume of the outside, and what they do not reach:

- Splitter.SplitMessage: text whose characters are not Python code points; the limit is in characters, as in the source.
- SplitterBounds.SplitBounded: needs fences that fit, which `BoundExactly` shows cannot be dropped.
- SplitterBalance.SplitBalanced: needs lines of at most half a message, which `BalancedExactly` shows cannot be dropped.
- SplitterBalance.BalancedExactly: limits below 6, at which no fence fits a slice, are left to `SplitBalanced`; `TEXT_LIMIT` is 4000.
- InterjectProtocol.EveryInterleaving: ids within one `add` are distinct; `add` filters against earlier calls only.
- InterjectProtocol.ReportedIsDelivered: which task a callback belongs to is part of the interleaving; that the bridge could tell is not modelled, as it does not ask.
- BridgeProtocol.EveryCompletionSettles: ids within one `interject` command are distinct.
- BridgeProtocol.EveryRunCompletesOnce: an exit's completion is not tied to the hook's own run; the code does not check it (`ExitIsOwnExactly`), and says an aborted task fires no further hook.
- BridgeTold.StepsAreNumbered: that GA counts each task's steps up is assumed.
- ReasoningEffort.StepsAreApply: the replay's last look at the live backend only says what it reports as effective, and is part of the method alone.
- WechatProgress.EveryRunGetsItsMessage: a step that gets on includes GA's `done` for the run the worker waits for; that GA puts it, and that threads are scheduled, is not modelled.
- ReporterTicks.TicksAreVisits: the session stays listed; an entry of a session that leaves the list is dropped, and starts blank if it comes back.
- ReporterRuns.AnswersGoForward: a turn the agent ends by saying the user already knows counts as a delivery, as in the source; a process that dies between sending a report and saving its state sends it again.
- Wall-clock parts of the WeChat runs (elapsed time, typing indicator, polling timeouts): times are not modelled, an empty queue is an item that is not there.
- The display helpers, file sending and iLink calls of the WeChat channel: taken to return, whatever they send; a failed send is a posted message that the source only logs.
- A worker that dies unexpectedly: its `finally` is modelled, an exception inside it is not.
- Candidate numbers in replies (`_PendingAsk.answer`) and the file hint in prompts: they change the text GA gets, not the queue.
- `/status`, `/help`, `/llm`, `/switch`: they post a fixed reply and touch no run.
- The content of events, telemetry, visibility and turn-start events of the bridge: only the events that say something about a run's life are in the log.
- `/btw`, titles, loading a history and switching models on the bridge: other commands of the same thread that open and close no run.
- A run whose `put_task` raises on the bridge: the source lets the exception through with the run open.
- Scrubbing of forwarded lines and rendering of reports: unknown functions, whatever they return.
- A `put_task` of the reporter that raises: the tick is abandoned as a whole.
- GA's agent loop: only its read and clear of `intervene`, its hook calls and the one `done` per task.
- Sockets, subprocesses, SQLite, JSON and the repair of malformed commands, menus, the updater itself, and the Feishu, Telegram and Discord senders: input and output, and glue over libraries.
