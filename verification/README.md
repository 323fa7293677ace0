# FreeDV GUI: a verified model of its stateful cores

FreeDV GUI is a digital voice terminal for amateur radio. This project models seven of its
cores, each as code that changes state the way the program does, and proves what those cores
are for over every input and every run.

1. **Tab layout.** The notebook's layout is saved as one string: panes separated by `|`, name
   and tab indices separated by `=`, indices by `,`, marks `*` and `+`, and the frame manager's
   own text after the first `@`. `Text.dfy` has the string and number functions,
   `TabLayout.dfy` the values and the meaning of saving and loading, `Notebook.dfy` the loops,
   `TabLayoutProofs.dfy` the theorems: no text loses a tab, and exactly which books survive a
   save and a load; `TabLayoutLoads.dfy` says which texts keep the notebook consistent, over
   any sequence of loads.
2. **Multi-mode receiver.** Several modems run in parallel deques and one of them is let out on
   every frame. `RxModel.dfy` is the state and one function per operation,
   `FreeDVInterface.dfy` the methods, `RxProofs.dfy` the invariants over whole runs and over
   any number of sessions.
3. **Voice keyer, PTT, recording.** `KeyerModel.dfy` is one state machine with an explicit queue
   of deferred calls, `MainFrame.dfy` the handlers, `KeyerProofs.dfy` safety over every
   interleaving and the bounds on plays and receive gaps.
4. **Per-band levels.** `BandLevels.dfy` has the two stores as values, `BandProofs.dfy` shows
   that they refine a write-through memory on the amateur bands and what happens off them,
   `BandFrame.dfy` has the handlers, which carry that refinement.
5. **Receive buffer.** `SampleStream.dfy`: fixed blocks in, chunks of the modem's size out, in
   place in an array, with the modem as an oracle.
6. **Fixed-point arithmetic.** `FixedPoint.dfy` has the kiss FFT macros for every word size and
   exactly when the complex product wraps, `Butterfly.dfy` the radix-2 and radix-4 butterflies
   built from them, `Fft.dfy` the two butterfly loops in place, `Transform.dfy` the recursion of
   kf_work, `FftFactors.dfy` kf_factor. Values live in a family of discs, the sixth of radius
   SAMP_MAX and each one outside it wider by 0.76; a factor of four costs one disc. So no
   transform of a power of two up to 8192 overflows at full scale, longer ones need a smaller
   input, and what a transform computes does not depend on the buffer it starts from.
   What it computes is the discrete Fourier transform divided by the length. `Dft.dfy` is the
   exact side, the sum over the powers of a root and how it splits into sums over every second
   and every fourth term; `Rounding.dfy` bounds what one butterfly is off by; `Decimation.dfy`
   carries a property of butterflies through the recursion; `KissFft.dfy` puts them together:
   entry k is within 6 for each factor of two and 11 for each factor of four of the sum over j of
   input[j * stride] times the (j * k)-th power of the root, over the length, forward or inverse
   as the root is. At full scale that is within 72 up to 8192 points.
7. **Array loops.** `BitPacking.dfy` (bit packing and error injection), `Oscillator.dfy` (the
   coherent frequency shift) and `PlotEnvelope.dfy` (plot decimation).

In each core a method's contract ties its new state to a function of the old one, and the
lemmas are about those functions. Numbers that are `float` in the source are `real` here, and
the keyer's time is counted in ticks of DT = 0.1 s.

Where the code does less than its comments or its name suggest, the model follows the code and
the lemma says exactly when the promise holds:

- A pane whose name contains `=`, `|` or `@`, or a book with no pane but the dummy, does not
  survive a save and a load; every other book does (`TabLayoutProofs.RoundTrip`).
- A layout text that starts with `@` or `|`, or is empty, fails the assertion on the destination
  pane, after every tab has already been taken out (`TabLayoutProofs.LoadOutcome`).
- A layout that names an index twice shows that tab twice (`TabLayoutProofs.LoadOutcome`).
- A RADE entry ahead of a legacy mode shifts the modems against the enabled modes
  (`RxProofs.Started`); on lists of distinct modes that is exactly when some run of allowed
  events leaves a handler's deques (`RxProofs.SessionRuns`). Whatever the list, stop brings
  every session back to the idle state (`RxProofs.SessionReturnsToIdle`).
- The SNR is rounded by adding one half and converting to int, which is toward zero: a squelch
  of zero or less lets a mode through down to almost a dB and a half below it, where one above
  zero stops at half a dB (`RxProofs.EligibleExactly`).
- Tuning outside the amateur bands does not update the last band: level steps made there, to
  either level, replace the saved level of the band left behind, whichever band is entered
  next, unless they take the level nowhere (`BandProofs.ExcursionLeaksLevel`).
- Restoring the transmit level while tuning writes the tune default
  (`BandProofs.RestoreTouchesOtherStore`).
- A block of samples can trigger two modem reads, and the first answer is then lost. No sample
  is: the frames counted are at most the non-empty answers, and all of them when no request is
  smaller than a block (`SampleStream.OneChunkExactly`, `SampleStream.FeedReceivers`).
- The complex product wraps exactly when one of its two sums leaves the range that rounds to a
  scalar (`FixedPoint.CMulExact`); a value never wraps, whatever sample it is multiplied with,
  exactly when its components add up to at most SAMP_MAX + 1 in size
  (`FixedPoint.NeverWraps`). The corner of the sample range shows that this can fail
  (`FixedPoint.CornerWraps`).
- Because the phase is normalised at the end of every call, a block shifted in two calls comes
  out as in one exactly when the phase on entry is a unit or the second half is silent
  (`Oscillator.ShiftInTwoCalls`).
- Entries other than 0 and 1 in the one-bit-per-char input spill into neighbouring bits
  (`BitPacking.PackRoundTrip`).
- Start and end bit of the error loop are checked only by nend_bit <= nbit. Among the ranges
  this admits, a draw can write outside the frame exactly when the range is not empty and
  starts at -8 or below, or ends at nbit on a whole-byte frame (`BitPacking.EndBitInFrame`,
  `BitPacking.LeavesFrame`).
- A hit at one of the bits -7 to -1 shifts the mask out of its byte: it is counted as an error
  and flips nothing. The count is the Hamming distance exactly when no such draw hits
  (`BitPacking.CountIsExact`, `BitPacking.CountedNotFlipped`).
- A radix-4 butterfly does not keep the disc of radius SAMP_MAX (`Butterfly.DiscNotKept`).

## Model

| member | source | states |
|---|---|---|
| Text.SplitAtFirst | src/topFrame.cpp:251-262 | BeforeFirst and AfterFirst undo joining at the first separator, whatever the tail contains |
| Text.PiecesOfJoin | src/topFrame.cpp:253-311 | the scanning loops recover any list of non-empty separator-free pieces from their joined text |
| Text.DigitsOfDecimal | src/topFrame.cpp:219 | reading the decimal digits of any natural number gives the number |
| Text.AtoiOfDecimal | src/topFrame.cpp:295 | a printed page index below 2^31 is read back exactly, through the int and size_t conversions |
| Text.DecimalIsShort | src/topFrame.cpp:219 | a printed index has no leading zero |
| Text.AtoiSigned | src/topFrame.cpp:295 | a sign counts, down to the least int |
| Text.AtoiBeyondLong | src/topFrame.cpp:295 | numbers from 2^63 - 1 on are read as -1, and below -2^63 as 0 |
| Text.AtoiSkipsSpace | src/topFrame.cpp:295 | the six blanks are skipped in front of a number |
| Text.NegativeSize | src/topFrame.cpp:295 | a negative number becomes an index that much below 2^64 |
| Notebook.TabFreeAuiNotebook.PageList | src/topFrame.cpp:208-220 | the page loop writes a pane's marked indices joined by commas |
| Notebook.TabFreeAuiNotebook.SavePerspective | src/topFrame.cpp:190-228 | the string-growing loops write the layout text: the non-dummy panes joined by bars, an at sign, the manager text |
| Notebook.TabFreeAuiNotebook.TakeTabsOut | src/topFrame.cpp:232-246 | every tab is taken out of the pane showing it, stopping at the first that none shows |
| Notebook.TabFreeAuiNotebook.ReadTabs | src/topFrame.cpp:281-306 | one pane's list becomes its pages, its active position and the selection; the set holds exactly the pages read |
| Notebook.TabFreeAuiNotebook.ReadPanes | src/topFrame.cpp:251-311 | the outer loop reads panes up to the first empty part, for any text at all |
| Notebook.TabFreeAuiNotebook.ReinsertMissing | src/topFrame.cpp:317-327 | the tabs not in the set are appended to the last pane in ascending order |
| Notebook.TabFreeAuiNotebook.LoadPerspective | src/topFrame.cpp:230-334 | the whole load in place equals the value-level load, in each of its three outcomes |
| TabLayoutProofs.NoTabLost | src/topFrame.cpp:249-331 | after loading any text every tab stands in some pane: as often as the text mentions it, once if it does not, and no other index appears |
| TabLayoutProofs.LoadOutcome | src/topFrame.cpp:255-259 | from a consistent book the assertion fails exactly on texts without a first pane; the result shows each tab exactly once if and only if the text repeats none |
| TabLayoutProofs.NoPaneLeaves | src/topFrame.cpp:249-259 | a text without a first pane leaves the dummy panes only, with the manager text already set |
| TabLayoutProofs.LoadStops | src/topFrame.cpp:232-246 | a load stopped by a tab no pane shows has taken out exactly the tabs before it and changed nothing else |
| TabLayoutProofs.RemovedActive | src/topFrame.cpp:232-246 | taking a tab out keeps a pane's active page active unless it is that tab |
| TabLayoutProofs.Reload | src/topFrame.cpp:230-334 | a saved layout read with any other number of tabs: same panes in order, the indices that still exist in order, unknown tabs appended in ascending order to the last pane, the manager text verbatim |
| TabLayoutProofs.CleanRoundTrip | src/topFrame.cpp:190-334 | a book with clean pane names comes back with the same panes, page order, active pages, current page and manager text |
| TabLayoutProofs.RoundTrip | src/topFrame.cpp:190-334 | the round trip holds if and only if there is a pane other than the dummy and no pane name contains a separator |
| TabLayoutProofs.LoadedNamesClean | src/topFrame.cpp:262-279 | no text at all is read back as a pane whose name contains a separator |
| TabLayoutLoads.LoadConsistent | src/topFrame.cpp:230-334 | a load that succeeds leaves a consistent notebook if and only if the text repeats no tab and puts none in a pane named "dummy" |
| TabLayoutLoads.LoadsKeepConsistent | src/topFrame.cpp:230-334 | after any sequence of such loads every tab is shown exactly once and the current one is active in its pane |
| TabLayoutLoads.LoadedRoundTrips | src/topFrame.cpp:190-334 | a notebook laid out from any such text is saved and read back exactly |
| TabLayoutLoads.SavedText | src/topFrame.cpp:190-228 | the text of one book in full: marks, separators, page lists and manager text |
| TabLayoutProofs.RemoveTabsEmpties | src/topFrame.cpp:234-247 | taking every tab out of a consistent book leaves only its dummy panes |
| TabLayoutProofs.SelectRestores | src/topFrame.cpp:329-331 | selecting the current page makes it active again in the one pane that shows it, whose text carried no active mark |
| FreeDVInterface.Interface.OpenAll | src/freedv_interface.cpp:153-239 | start's loop pushes to every deque once per legacy mode, takes the mode of every RADE entry, and finds the smallest minimum SNR (in numbers: RxProofs.Started and StartedModes) |
| FreeDVInterface.Interface.Start | src/freedv_interface.cpp:142-246 | start's new state: modes opened in order, then the minimum subtracted from every offset (in numbers: RxProofs.Started and StartedModes) |
| FreeDVInterface.Interface.Stop | src/freedv_interface.cpp:248-312 | stop empties every deque, resets the modes and closes every modem it holds |
| FreeDVInterface.Interface.ChangeTxMode | src/freedv_interface.cpp:436-458 | the transmit modem becomes the one at the mode's first position; a mode not enabled is the failed assertion |
| FreeDVInterface.Interface.SetSquelch | src/freedv_interface.cpp:658-670 | every threshold becomes the level plus that modem's offset |
| FreeDVInterface.Interface.PreProcessRxFn | src/freedv_interface.cpp:895-931 | the index of the current receive modem if it is in sync, -1 otherwise, 0 in RADE |
| FreeDVInterface.Interface.ScanModes | src/freedv_interface.cpp:959-983 | one pass smooths every estimate and finds the best eligible mode by the new values (the weights: RxProofs.FrameSmooths) |
| FreeDVInterface.Interface.PostProcessRxFn | src/freedv_interface.cpp:933-1035 | sticky choice, scan, fallback and commit together equal the value-level step (what it selects: RxProofs.SelectionIsArgmax, FrameSmooths and EligibleExactly) |
| RxProofs.Started | src/freedv_interface.cpp:142-246 | after start the deques are in lockstep over the legacy modes in order, with SNRs of -20 and thresholds of 0; offsets are non-negative with minimum zero and keep their differences, and modem i serves enabled mode i exactly when no RADE entry precedes a legacy one |
| RxProofs.StartedModes | src/freedv_interface.cpp:153-239 | for every list, after start from the idle state both modes are the last entry that is a RADE mode or the wanted one, or 0 when there is none, and the RADE flag is set exactly when the list has a RADE entry |
| RxProofs.RadeSession | src/freedv_interface.cpp:895-957 | a session on RADE alone, whatever happens in it: preProcess answers 0, and every frame lets index 0 out with the sync RADE reports |
| RxProofs.LegacyIsPrefix | src/freedv_interface.cpp:154-196 | the legacy modes keep their positions exactly when no RADE entry precedes one |
| RxProofs.StopIsIdle | src/freedv_interface.cpp:248-312 | stop from lockstep leaves the idle state with nothing open |
| RxProofs.StepKeepsLocked | src/freedv_interface.cpp:436-458 | every frame, transmit change and squelch change keeps the receive modem open and matching rxMode_, and likewise the transmit modem |
| RxProofs.SwitchNeedsSync | src/freedv_interface.cpp:939-1021 | the receive mode changes only on a frame where it is out of sync, and only to a mode that is in sync |
| RxProofs.StickyHolds | src/freedv_interface.cpp:918-957 | the index preProcess returns is the one postProcess returns if that modem is still in sync |
| RxProofs.DecodedAlone | src/freedv_interface.cpp:895-931 | preProcess answers the position of the current receive modem when it is in sync, -1 when it is not, and 0 with RADE |
| RxProofs.TxModeChanges | src/freedv_interface.cpp:436-458 | a change of the transmit mode takes any RADE mode, and a legacy one with the modem at its first position; a legacy mode that is not enabled fails, and nothing else changes |
| RxProofs.BestIsFirstBest | src/freedv_interface.cpp:959-983 | the scan finds the first eligible mode of maximal rounded SNR, or none when none is eligible |
| RxProofs.SelectionIsArgmax | src/freedv_interface.cpp:959-1000 | with the current mode out of sync the frame settles on the first best eligible mode, or on the transmit mode when none is eligible |
| RxProofs.FrameSmooths | src/freedv_interface.cpp:966-968 | a frame with the current mode out of sync moves every smoothed SNR a twentieth of the way to a finite estimate and none at any other; a frame with it in sync moves none |
| RxProofs.SmoothsGeometrically | src/freedv_interface.cpp:966-968 | over n such frames with the same estimate e the value is e plus 0.95 to the power n times the distance it started at |
| RxProofs.EligibleExactly | src/freedv_interface.cpp:969-981 | the scan takes a mode in sync above -25.5 dB and, with the squelch on at a whole number of dB, down to half a dB below it, or almost a dB and a half where the conversion rounds toward zero |
| RxProofs.SquelchLevels | src/freedv_interface.cpp:658-670 | setting the squelch after start gives the most robust open mode the level itself and every other one as much more as its minimum SNR (700D -2, 700E 1, 1600 4, others 0) is above, sets the switch, and changes nothing else |
| RxProofs.SyncReported | src/freedv_interface.cpp:1005-1034 | sync is reported exactly when the mode let out is in sync, and then it is the current receive mode |
| RxProofs.RunKeepsLocked | src/freedv_interface.cpp:895-1035 | over any sequence of allowed events from a locked state no handler leaves its deques, receive and transmit modem stay open and matched to their modes, and nothing is opened, closed or reordered |
| RxProofs.RunBounded | src/freedv_interface.cpp:962-970 | over any run, whatever the enabled list, every smoothed SNR stays in the hull of its start and the finite estimates seen |
| RxProofs.AllowedRuns | src/freedv_interface.cpp:895-1035 | while every enabled legacy mode has a modem at its first position no sequence of allowed events leaves a handler's deques |
| RxProofs.StartIsLocked | src/freedv_interface.cpp:142-246 | from the idle deques start locks receiver and transmitter, to the wanted mode, if and only if the enabled modes are all legacy ones and include it |
| RxProofs.SessionReturnsToIdle | src/freedv_interface.cpp:142-312 | start with any list, any run, stop: back to the idle state with every modem closed, and SNRs in the hull of -20 and the estimates |
| RxProofs.RoundsReturnToIdle | src/freedv_interface.cpp:142-312 | any number of sessions, each with its own list, ends in the idle state |
| RxProofs.SessionRuns | src/freedv_interface.cpp:142-246 | every session of allowed events stays within the deques if and only if each legacy mode's first position is below the number of legacy entries; lists without a RADE entry ahead of a legacy one are such, and no other list of distinct modes |
| MainFrame.Frame.TogglePTT | src/ongui.cpp:1119-1423 | transmitter and recording source follow the button, and a pending end of transmission is cleared by a toggle that leaves or enters transmit |
| MainFrame.Frame.VoiceKeyerStartTx | src/voicekeyer.cpp:214-275 | a playable file starts playing and the transmitter; any other file changes nothing and gives idle |
| MainFrame.Frame.VoiceKeyerProcessEvent | src/voicekeyer.cpp:287-419 | every state and event of the keyer, with deferred calls appended to the queue (in numbers: KeyerProofs.QuietGap, TxTakesPause, SyncHeld and StartPlays) |
| MainFrame.Frame.StopPlayFileToMicIn | src/playrec.cpp:64-76 | a play is stopped once and reported to the keyer once |
| MainFrame.Frame.StopRecFileFromRadio | src/playrec.cpp:176-194 | an open raw recording is closed with both source flags cleared |
| MainFrame.Frame.OnTogBtnRecord | src/playrec.cpp:217-357 | stops the open recording, or opens the chosen one with the source that matches the transmitter |
| MainFrame.Frame.OnTogBtnPTT | src/ongui.cpp:1105-1117 | while the keyer transmits the button ends the keyer, otherwise it toggles PTT |
| MainFrame.Frame.OnSpaceBar | src/ongui.cpp:1043-1079 | the space bar flips PTT when the keyer is idle and stops the keyer otherwise |
| MainFrame.Frame.OnTogBtnVoiceKeyerClick | src/voicekeyer.cpp:16-69 | the click ends the recording of a new keyer file and closes it, starts an idle keyer unless a file is refused, and stops any other keyer |
| MainFrame.Frame.OnRecordNewVoiceKeyerFile | src/voicekeyer.cpp:71-137 | a file that opens is recorded to and becomes the keyer's file; one that does not leaves no file open; dismissing the dialog changes nothing |
| MainFrame.Frame.OnTimer | src/main.cpp:2053 | each tick of the timer goes to the keyer |
| KeyerProofs.StepKeeps | src/voicekeyer.cpp:287-419 | every event keeps the whole invariant of button, transmitter, queue, recording sources, play handle and session counts |
| KeyerProofs.EveryRun | src/voicekeyer.cpp:287-419 | the invariant holds after every sequence of events from the start |
| KeyerProofs.PttConverges | src/ongui.cpp:1119-1398 | in every reachable state a disagreement of transmitter and button, or an announced end, has a togglePTT queued; an open raw recording has exactly the source that matches the transmitter; a transmitting keyer has its file playing, and a file playing without it has its stop queued |
| KeyerProofs.PlaysBounded | src/voicekeyer.cpp:323-339 | plays of a session equal the repeat counter plus one while transmitting, and never exceed repeats plus one |
| KeyerProofs.SessionEnds | src/voicekeyer.cpp:323-339 | in every reachable state, a play that finishes ends the session exactly when it was the last of repeats plus one |
| KeyerProofs.DrainSettles | src/voicekeyer.cpp:320-327 | left alone, the event loop runs out of deferred calls; the transmitter is then as the button says and a file plays just while the keyer transmits |
| KeyerProofs.DeferredShrinks | src/voicekeyer.cpp:320-327 | each deferred call makes the queue's weight smaller, although stopping a play may queue another |
| KeyerProofs.GapAccounted | src/voicekeyer.cpp:343-402 | the ticks of a receive gap are accounted for by the keyer's two clocks over all its visits to receive and sync-wait |
| KeyerProofs.GapEnds | src/voicekeyer.cpp:343-402 | a gap lasts at most the pause (at least one tick) plus 51 ticks per sync acquisition; ticks without sync are bounded over all visits together |
| KeyerProofs.QuietGap | src/voicekeyer.cpp:349-360 | from entering receive, n ticks without sync and with a playable file lead to transmission if and only if n is at least one and at least ten times the pause in seconds |
| KeyerProofs.TxTakesPause | src/voicekeyer.cpp:343-402 | with sync in between, a gap ends in transmission only when its quiet ticks and the ticks counted in sync-wait together reach ten times the pause |
| KeyerProofs.QuietTickEnds | src/voicekeyer.cpp:349-360 | and the first quiet tick that reaches it ends the gap: in transmission if the file can be played, else in idle |
| KeyerProofs.SyncHeld | src/voicekeyer.cpp:371-402 | sync held in sync-wait ends the session after exactly 50 ticks and not before |
| KeyerProofs.SyncComesAndGoes | src/voicekeyer.cpp:349-391 | one tick with sync starts the wait with the clock as it stands, and one without leads back to receive |
| KeyerProofs.StartPlays | src/voicekeyer.cpp:292-304 | starting an idle keyer with a playable file puts it on the air with the configured pause, repeats and monitoring; any other file changes nothing that is heard |
| KeyerProofs.GapCutShort | src/voicekeyer.cpp:362-382 | space bar and keyer button end any gap in idle and change nothing else |
| KeyerProofs.TransmissionCutShort | src/voicekeyer.cpp:311-321 | space bar, keyer button and PTT button end a keyer transmission: button and transmitter off, keyer idle, stopping the file queued |
| KeyerProofs.FileFinishes | src/voicekeyer.cpp:323-339 | a file played to its end lets the button go, announces the end of the transmission, queues the toggle last, and enters the gap with its clock at zero or ends the session after the last repeat |
| KeyerProofs.MonitorFollows | src/voicekeyer.cpp:268-415 | a tick leaves the monitor on exactly when it starts a transmission with monitoring configured |
| KeyerProofs.RequestsHonoured | src/playrec.cpp:64-194 | once the deferred calls have run, the recording limit has closed the raw recording with both sources cleared, and the end of playback has stopped the keyer's transmission |
| KeyerProofs.PressTurnsOver | src/ongui.cpp:1043-1117 | a press of the PTT button or of the space bar turns the transmitter over, with an open raw recording's source, and touches neither keyer nor play |
| KeyerProofs.RecordButtonTurnsOver | src/playrec.cpp:217-357 | the record button closes the recording there is and otherwise opens the one chosen, from the source that matches the transmitter |
| BandFrame.LevelControls.AutoSaveCurrentBandLevels | src/ongui.cpp:795-817 | the live levels are written to the maps only where the last band already has an entry |
| BandFrame.LevelControls.ApplyTxLevel | src/ongui.cpp:845-887 | the selected level is clamped, and becomes the global default only where the reporting band has no entry |
| BandFrame.LevelControls.OnChangeReportFrequency | src/ongui.cpp:1700-1785 | on a new amateur band: save the outgoing levels, load the new band's, apply once |
| BandFrame.LevelControls.OnTxLevelStep | src/ongui.cpp:889-899 | the step goes to the level the Tune button selects |
| BandFrame.LevelControls.OnToggleTxSave | src/ongui.cpp:923-932 | Enable stores the live level and a restore point, Disable removes the entry |
| BandFrame.LevelControls.OnToggleTuneSave | src/ongui.cpp:963-972 | the same for the tune level |
| BandFrame.LevelControls.OnRestoreTx | src/ongui.cpp:937-940 | the level goes back to the restore point and is applied |
| BandFrame.LevelControls.OnRestoreTune | src/ongui.cpp:975-978 | the tune level goes back to its restore point and the selected level is applied |
| BandFrame.LevelControls.OnTogBtnTune | src/ongui.cpp:1425-1463 | the Tune button selects the other level and changes none |
| BandProofs.NamesDistinct | src/ongui.cpp:773-790 | different amateur bands have different map keys, and only the two catch-all values have none |
| BandProofs.Refines | src/ongui.cpp:773-981 | on the amateur bands every handler does to the cached levels what it does to a write-through per-band memory, and keeps every level legal |
| BandProofs.RunRefines | src/ongui.cpp:773-981 | the refinement holds over every run |
| BandProofs.FirstFrequency | src/ongui.cpp:1772-1784 | the first frequency on a band starts the refinement with the configured maps as the bands' values |
| BandProofs.EventIsLocal | src/ongui.cpp:795-841 | no event changes the saved value of a band that is not current, and a frequency change preserves every band's value in both stores |
| BandProofs.StepsAndKeys | src/ongui.cpp:889-981 | a step moves only the level of the store the Tune button selects, within range; only Enable and Disable change which bands are saved |
| BandProofs.ReturnRestores | src/ongui.cpp:1771-1784 | leaving a band, doing anything on other bands and coming back restores the saved levels |
| BandProofs.OffBandRun | src/ongui.cpp:845-981 | any run outside the bands saves nothing, takes each live level where its steps take it, and makes a stepped level the default |
| BandProofs.ExcursionLeaksLevel | src/ongui.cpp:1766-1785 | after any run outside the bands and a return to any band, each store holds for the band left the level the steps took it to, so that its saved value survives if and only if they took it nowhere; every other band keeps its value |
| BandProofs.RestoreTouchesOtherStore | src/ongui.cpp:937-940 | restoring the transmit level leaves the tune store alone unless tuning on a band whose tune level is neither saved nor the default |
| BandProofs.RestoreTuneTouchesOtherStore | src/ongui.cpp:975-978 | restoring the tune level leaves the transmit store alone unless not tuning on a band whose transmit level is neither saved nor the default |
| BandProofs.RestoreUndoesSteps | src/ongui.cpp:937-978 | on a band just entered with a saved level, Restore brings that level back whatever steps were made |
| BandProofs.EnableThenRestore | src/ongui.cpp:923-978 | Enable stores the level as it stands and makes it what Restore brings back after any steps; Disable forgets it |
| BandProofs.RoundsToHundred | src/ongui.cpp:1700-1740 | the frequency typed goes to the nearest multiple of 100 Hz |
| BandProofs.BandEdges | src/gui/dialogs/freedv_reporter.cpp:2294-2344 | the edges of the eleven bands in Hz, by the key each is saved under |
| BandProofs.LevelRange | src/ongui.cpp:845-887 | levels are kept from -300 to 0 tenths of a dB and are left alone inside |
| SampleStream.RunReceiver | codec2-1.2.0/demo/freedv_datac0c1_rx.c:108-130 | one call hands the modem the cut of the buffered samples and the block, keeps the rest in the buffer, and returns the last answer |
| SampleStream.CutConserves | codec2-1.2.0/demo/freedv_datac0c1_rx.c:119-126 | the chunks and what is left, concatenated, are the stream; each chunk has the size asked for; what is left is at most one request |
| SampleStream.CutAppend | codec2-1.2.0/demo/freedv_datac0c1_rx.c:119-126 | the chunks do not depend on how the stream was divided into calls |
| SampleStream.OneChunkExactly | codec2-1.2.0/demo/freedv_datac0c1_rx.c:119-129 | a call makes at most one read, so that no answer is overwritten, exactly when the samples at hand are no more than the next two requests |
| SampleStream.NextBlock | codec2-1.2.0/demo/freedv_datac0c1_rx.c:114-126 | each block adds the cut of what was left and the block: at most one chunk when every request is at least a block |
| SampleStream.FeedReceivers | codec2-1.2.0/demo/freedv_datac0c1_rx.c:78-97 | two modems with any positive request schedules each hear exactly the cut of the whole blocks, in order; the frames counted are at most the non-empty answers, and all of them when every request is at least a block |
| SampleStream.BlocksOf160 | codec2-1.2.0/demo/freedv_datac0c1_rx.c:78-97 | what is fed are the whole blocks of 160 samples |
| FixedPoint.CMulInto | codec2-1.2.0/src/_kiss_fft_guts.h:88-92 | the macro in place, also where the destination is the first operand, the second, or both |
| FixedPoint.CAddTo | codec2-1.2.0/src/_kiss_fft_guts.h:142-148 | the wrapped sum, and how many overflow warnings are printed |
| FixedPoint.CSubFrom | codec2-1.2.0/src/_kiss_fft_guts.h:150-156 | the wrapped difference, and how many overflow warnings are printed |
| FixedPoint.WarnsOutside | codec2-1.2.0/src/_kiss_fft_guts.h:73-81 | one warning for each component below -SAMP_MAX or above SAMP_MAX |
| FixedPoint.CMulFits | codec2-1.2.0/src/_kiss_fft_guts.h:60-92 | over all scalars the sums with rounding fit SAMPPROD unless all four components are the most negative scalar |
| FixedPoint.TwoSquares | codec2-1.2.0/src/_kiss_fft_guts.h:88-92 | the two-square identity for the components C_MUL forms |
| FixedPoint.CMulInDisc | codec2-1.2.0/src/_kiss_fft_guts.h:83-92 | for operands in the disc each component is within one half of the exact quotient, in the sample range, and not wrapped |
| FixedPoint.CMulExact | codec2-1.2.0/src/_kiss_fft_guts.h:84-92 | over all operands the product is the rounded one if and only if both sums round to a scalar |
| FixedPoint.NeverWraps | codec2-1.2.0/src/_kiss_fft_guts.h:84-92 | a value wraps with no sample if and only if its components add up to at most SAMP_MAX + 1 in size |
| FixedPoint.CornerWraps | codec2-1.2.0/src/_kiss_fft_guts.h:84-92 | a witness that the condition can fail: the square of the corner of the sample range |
| FixedPoint.DivScalarBound | codec2-1.2.0/src/_kiss_fft_guts.h:94 | for every divisor up to SAMP_MAX the result is at most SAMP_MAX / k in size and does not wrap |
| FixedPoint.DivScalarError | codec2-1.2.0/src/_kiss_fft_guts.h:94 | the result is within 3/2 of x / k |
| FixedPoint.ScaledSumsFit | codec2-1.2.0/src/_kiss_fft_guts.h:73-100 | any signed sum of at most k values scaled by C_FIXDIV has every partial sum in the sample range |
| Butterfly.Triangle | codec2-1.2.0/src/kiss_fft.c:48-49 | the triangle inequality behind the sum and difference of a butterfly |
| Butterfly.Bfly2StaysInDisc | codec2-1.2.0/src/kiss_fft.c:43-49 | a radix-2 butterfly on values of a disc, from the third on, prints no warning; its halves, its product and its results equal their unconverted values; and the results are in the same disc |
| Butterfly.Bfly4Widens | codec2-1.2.0/src/kiss_fft.c:67-96 | a radix-4 butterfly on four values of a disc, from the first on, prints no warning, equals its unconverted value, and leads to the disc before, forward and inverse |
| Butterfly.DiscNotKept | codec2-1.2.0/src/kiss_fft.c:67-96 | a witness that the widening is needed: four values of the disc of radius SAMP_MAX that leave it |
| Butterfly.Bfly2Prints | codec2-1.2.0/src/kiss_fft.c:48-49 | a radix-2 butterfly prints nothing if and only if both components of its sum and of its difference lie within SAMP_MAX |
| Butterfly.Bfly4Prints | codec2-1.2.0/src/kiss_fft.c:76-84 | a radix-4 butterfly prints nothing if and only if its three pairs of checked sums do; the last two sums are not checked |
| Rounding.DividedClose | codec2-1.2.0/src/_kiss_fft_guts.h:94-100 | C_FIXDIV of a value of a disc by two or four is within 1.75 of the exact quotient |
| Rounding.ProductClose | codec2-1.2.0/src/_kiss_fft_guts.h:84-92 | the product of a value with the nearest twiddle to a unit is near the exact product with that unit, by a bound on the value's length |
| Rounding.Bfly2Close | codec2-1.2.0/src/kiss_fft.c:43-49 | the results of a radix-2 butterfly are within six of half of x + uy and half of x - uy, for any unit u its twiddle is nearest to, and an error of x and y stays as it is |
| Rounding.Bfly4Close | codec2-1.2.0/src/kiss_fft.c:67-96 | the i-th result of a radix-4 butterfly is within eleven of a quarter of the i-th output of the four-point transform of the turned values, forward and inverse, an error of the values stays as it is, and the value is in the disc before |
| Rounding.Bfly4Outputs | codec2-1.2.0/src/kiss_fft.c:67-96 | the four results in components, each within eleven of a quarter of a + b + c + d, a - ib - c + id, a - b + c - d and a + ib - c - id, the second and the fourth exchanged for the inverse |
| Fft.KfBfly2 | codec2-1.2.0/src/kiss_fft.c:36-53 | the loop in place is the stage over the old array with every fstride-th twiddle, warnings included |
| Fft.StageIsParallel | codec2-1.2.0/src/kiss_fft.c:41-52 | each butterfly sees its two entries as the stage found them, and the entries outside the stage are untouched |
| Fft.KfBfly4 | codec2-1.2.0/src/kiss_fft.c:55-98 | the radix-4 loop in place is its stage, with twiddles one, two and three strides on (what the stage computes: Rounding.Bfly4Outputs, KissFft.WholeIsTransform) |
| Fft.Stage4IsParallel | codec2-1.2.0/src/kiss_fft.c:66-97 | each radix-4 butterfly sees its four entries as the stage found them |
| Transform.KfWork | codec2-1.2.0/src/kiss_fft.c:244-322 | the recursion in place is the transform as a function of input and factors, and every read of input and twiddles is inside its array (what it computes: KissFft.WholeIsTransform) |
| KissFft.KissFftStride | codec2-1.2.0/src/kiss_fft.c:392-405 | with the output in its own array or in place of the input by way of a buffer: on safe inputs it prints nothing and loses nothing, and with the twiddles of a root for the length it leaves in entry k, for every k, the sum over j of input[j * stride] times the (j * k)-th power of the root divided by the length, within 6 for each factor of two and 11 for each of four |
| Transform.WorkForgets | codec2-1.2.0/src/kiss_fft.c:244-322 | a transform writes only its own entries, and what it leaves there does not depend on what stood there |
| Decimation.WorkComputes | codec2-1.2.0/src/kiss_fft.c:244-322 | what single input values have, and butterflies carry from outputs k of two or four smaller transforms to outputs k, k + m, k + 2m and k + 3m of the larger one, every output of a whole transform has |
| Dft.TimesLawful | src/comp_prim.h:57-65 | cmult is associative, commutative and distributive, and a product with a quarter turn exchanges components and signs |
| Dft.FourPointIsSum | codec2-1.2.0/src/kiss_fft.c:76-96 | the four-point transform in components is the sum of four values with the powers of -i, or of i for the inverse |
| Dft.SumSplits | codec2-1.2.0/src/kiss_fft.c:43-49 | a sum of an even number of terms over the powers of z is the sum of the even terms and z times that of the odd ones, over the powers of z squared |
| Dft.FourSums | codec2-1.2.0/src/kiss_fft.c:67-96 | a sum of four times as many terms is the four-point transform of the sums of every fourth term with the twiddle and its square and cube |
| KissFft.CoefficientTwo | codec2-1.2.0/src/kiss_fft.c:292-309 | output k + i * m of a transform of twice the length m, exactly, from outputs k of the transforms of the even and of the odd values with the k-th twiddle at its stride |
| KissFft.CoefficientFour | codec2-1.2.0/src/kiss_fft.c:292-314 | output k + i * m of four times the length, from outputs k of the four transforms of every fourth value |
| KissFft.WholeIsTransform | codec2-1.2.0/src/kiss_fft.c:244-405 | by induction on the factors: every entry of a whole transform of values of a disc is within 6 for each factor of two and 11 for each of four of the discrete Fourier transform divided by the length, in natural order, for any stride, forward and inverse |
| Transform.WorkKept | codec2-1.2.0/src/kiss_fft.c:244-322 | whatever the copies, the recombinations and putting parts side by side do to two runs, the recursion does |
| Transform.WorkQuiet | codec2-1.2.0/src/kiss_fft.c:244-322 | for any butterflies: if each keeps a family of nested regions quietly, so does the whole transform, one region further out for each factor of four |
| Transform.TransformNeverOverflows | codec2-1.2.0/src/kiss_fft.c:244-322 | a whole fixed-point transform from inputs in a disc prints no overflow warning, loses nothing to a conversion, writes only its entries, and ends one disc further out for each factor of four, as long as no disc runs out |
| Transform.StagesNeverOverflow | codec2-1.2.0/src/kiss_fft.c:36-98 | any sequence of radix-2 and radix-4 loops over values of a disc, on whatever entries, prints no overflow warning and loses nothing, as long as no disc runs out |
| Transform.WholeNeverOverflows | codec2-1.2.0/src/kiss_fft.c:392-405 | the same for a whole call of kiss_fft_stride, whatever the output held |
| FftFactors.KfFactor | codec2-1.2.0/src/kiss_fft.c:328-353 | for every length the entries split it down to one; the radices are fours, then at most one two, then odd primes in order |
| FftFactors.BufferSuffices | codec2-1.2.0/src/_kiss_fft_guts.h:38-47 | the factors of any length below 2^31 take at most 30 of the buffer's 32 entries |
| FftFactors.FactorsFit | codec2-1.2.0/src/kiss_fft.c:328-353 | for a power of two they are factors of a transform of that length, and below the (k + 1)-st power of four no disc runs out from the k-th |
| FftFactors.FullScaleIsSafe | codec2-1.2.0/src/kiss_fft.c:244-405 | with these factors a transform of any power of two up to 8192 of values of the disc of radius SAMP_MAX prints no overflow warning and loses nothing |
| FftFactors.FullScaleComputes | codec2-1.2.0/src/kiss_fft.c:244-405 | with these factors and the twiddles of a root for the length, a transform of any power of two up to 8192 of values of that disc leaves every entry within 72 of the transform of the input divided by the length |
| BitPacking.PackChars | codec2-1.2.0/src/c2dec.c:332-346 | the cursor loop puts entry i at byte i / 8, bit 7 - i % 8 |
| BitPacking.PackSoft | codec2-1.2.0/src/c2dec.c:315-328 | the soft-decision loop packs the signs the same way |
| BitPacking.PackedValue | codec2-1.2.0/src/c2dec.c:332-346 | a packed byte as a number: its first entry weighs 128 and its last one |
| BitPacking.SoftBits | codec2-1.2.0/src/c2dec.c:315-328 | a bit is set exactly for a negative soft value |
| BitPacking.PackRoundTrip | codec2-1.2.0/src/c2dec.c:332-346 | unpacking gives the entries back if and only if they are all 0 or 1, and then the padding is zero |
| BitPacking.InjectErrors | codec2-1.2.0/src/c2dec.c:250-266 | over any start and end bit, as long as no draw outside the frame hits, the loop flips exactly the bits of the frame whose draw hit, and counts the hits and the bits processed |
| BitPacking.ErrorsAreDistance | codec2-1.2.0/src/c2dec.c:253-262 | the errors counted are the Hamming distance between the frame before and after, and the hits at negative bits |
| BitPacking.CountIsExact | codec2-1.2.0/src/c2dec.c:253-262 | the count is that distance if and only if no draw at a negative bit hit |
| BitPacking.AlwaysExact | codec2-1.2.0/src/c2dec.c:253-262 | over all draws that stay in the frame it is, if and only if the range has none of the bits -7 to -1 |
| BitPacking.CountedNotFlipped | codec2-1.2.0/src/c2dec.c:186-262 | the failing input: start bit -1 and a hit there alone |
| BitPacking.ErrorsUndo | codec2-1.2.0/src/c2dec.c:256-259 | the same pattern again restores the frame byte for byte |
| BitPacking.StaysInFrame | codec2-1.2.0/src/c2dec.c:250-259 | no draw can take the loop out of the frame if and only if the range is empty, or starts above -8 and ends in a frame of at least a byte |
| BitPacking.EndBitInFrame | codec2-1.2.0/src/c2dec.c:231-259 | among the ranges the program admits, a draw can leave the frame exactly on a non-empty one that starts at -8 or below, or ends at nbit on a whole-byte frame |
| BitPacking.LeavesFrame | codec2-1.2.0/src/c2dec.c:231-259 | two admitted inputs that do |
| Oscillator.FreqShiftCoh | src/util.cpp:232-250 | the loop computes the closed form: sample i turned by the phase and i + 1 steps, then the final phase divided by its magnitude |
| Oscillator.PhaseNormalised | src/util.cpp:245-249 | the normalised phase is a unit from any phase, and it is the exact phase after nin steps if and only if the phase on entry is a unit |
| Oscillator.ShiftKeepsMagnitude | src/util.cpp:232-243 | every sample keeps its squared magnitude |
| Oscillator.ShiftInTwoCalls | src/util.cpp:232-250 | a block shifted in two calls, the second from the normalised phase of the first, comes out as in one call if and only if the phase on entry is a unit or the second half is silent |
| Oscillator.PhaseInTwoCalls | src/util.cpp:232-250 | the phase two calls leave is the phase one call leaves, from any phase |
| Oscillator.OppositeShiftUndoes | src/util.cpp:232-243 | the conjugate step from the conjugate phase undoes a shift |
| Oscillator.ClickTune | src/util.cpp:21-41 | the two offsets are opposite; 10 Hz or more from 1500 they are the frequency less 1500 and 1500 less the frequency, and nearer both are zero |
| Oscillator.TunedShiftsCancel | src/util.cpp:21-41 | shifting by clickTune's two offsets one after the other gives the signal back |
| Oscillator.ToneShifted | src/util.cpp:232-243 | a tone of any frequency shifted by an offset is a tone of their sum |
| Oscillator.TunedToneCentred | src/util.cpp:21-41 | a tone at the frequency clicked, shifted by the receive offset, stands at 1500 Hz |
| Oscillator.MultIsComplex | src/comp_prim.h:57-65 | cmult is bilinear and commutative, has one as its neutral element, and squares i to -1 |
| Oscillator.MultNorm | src/comp_prim.h:57-65 | cmult multiplies squared magnitudes |
| Oscillator.ConjInverse | src/comp_prim.h:47-55 | a unit's conjugate is its inverse |
| PlotEnvelope.Extremes | src/util.cpp:267-272 | the inner loop finds the maximum and minimum of the window together with zero |
| PlotEnvelope.ResampleForPlot | src/util.cpp:257-277 | every plotted pair is the envelope of its own window, and nothing after the plotted samples is written |
| PlotEnvelope.WindowNotEmpty | src/util.cpp:267-270 | every window holds at least one sample and ends within the buffer |
| PlotEnvelope.WindowsPartition | src/util.cpp:259-270 | the windows follow one another without gap or overlap, the count is even, and fewer than one decimation step of samples is left out |
| PlotEnvelope.ValuesPerSecond | src/util.cpp:257-270 | a second of samples gives 400 values at a multiple of 400 Hz, and from 400 to 800 at any other rate |

## Left out

- Window library behaviour: renaming of panes with empty or repeated names, copied active flags, drawing, sizes, and parsing of the manager's own text, which is opaque here.
- Number parsing outside the C int range: the standard leaves atoi open there; the model clamps to a 64-bit long and then keeps 32 bits, as glibc does.
- Notebooks with 2^31 tabs or more, whose printed indices no int can hold.
- IEEE rounding: SNRs, the oscillator and its square root are over real numbers; the keyer's clocks are whole ticks, so the drift of adding 0.1 in single precision is not modelled.
- Transform.KfWork: radices two and four, the only ones for powers of two; the radix 3, 5 and generic butterflies, C_MULBYSCALAR and the parallel top level are not modelled.
- KissFft.KissFftStride: powers of two, from two on; the generic butterfly, which a length of one and other lengths need, is not modelled, nor is a partial overlap of input and output. The bound is for inputs from which nothing overflows.
- KissFft.WholeIsTransform: the root is a parameter, any complex number whose half power is -1 and whose quarter power is -i (i for the inverse), and the twiddles are the nearest scalars to its powers; that cosine and sine of 2 pi / n make such a number is taken as known, and an error of cosf and sinf is not modelled.
- Transform.TransformNeverOverflows: twiddles are taken to be nearest scalars to points of the circle, so an error of cosf is not modelled. The discs widen by 0.76 where single butterflies are shown to need some widening (DiscNotKept); that a whole transform of more than 8192 full-scale values does overflow is not shown.
- FftFactors.KfFactor: the root sqrtf and floorf give is a parameter, known to be at least the root rounded down.
- RxProofs.RunKeepsLocked: runs start from locked states, which after start are those of all-legacy lists holding the wanted mode (StartIsLocked); with a RADE transmit mode the lock says nothing about the transmit modem.
- RxProofs.SessionReturnsToIdle: the run is one that stays within the deques (SessionRuns says when every run does); RADE's own handles, opened once per RADE entry, are not modelled beyond one flag.
- FreeDVInterface: the statistics list, lastSyncRxMode_, text and error callbacks, and the single-thread switch do not influence the selection.
- MainFrame.Frame.TogglePTT: one atomic step; handlers that run inside its waiting loops, PTT over a serial port, CAT and reporters are not modelled.
- MainFrame.Frame.VoiceKeyerProcessEvent: the default branch for a state outside the four is unreachable and left out; button colours and labels are not modelled.
- MainFrame.Frame.OnTogBtnVoiceKeyerClick: whether the file exists, the choice of another, and the keyer events those dialogs let through are one argument; the recorded sound is not modelled.
- MainFrame.Frame.StopPlayFileToMicIn: other users of the play file (OnPlayFileToMicIn is not part of this model) and locking are not modelled.
- Starting and stopping the audio engine, which also ends transmissions.
- BandProofs.Refines: events on the amateur bands, with ExcursionLeaksLevel for those outside; a radio's own frequency reports, which can differ from the reporting frequency, and the write of the transmit default at program exit are not modelled.
- BandLevels: the linear scale factors, saving the configuration file and parsing the typed frequency.
- SampleStream.FeedReceivers: the demodulators are arbitrary request and answer schedules; a short last block is dropped, as in the program.
- BitPacking.InjectErrors: the random draws are an arbitrary pattern of hits; a write outside the frame, which is undefined, is outside its precondition, and EndBitInFrame says for which ranges it can happen. The two-state burst model, which no option selects, is left out.
- Oscillator.FreqShiftCoh: the square root of the final magnitude is a parameter known only by its square, so a zero phase, for which the program divides by zero, is excluded.
- PlotEnvelope.ResampleForPlot: sampling rates below 400, for which the program divides by zero, are excluded; the write to the plot FIFO is not modelled.
- GenericFIFO, the parallel pipeline steps, audio and file libraries, Hamlib, reporters and the vocoders are arbitrary inputs or absent.
