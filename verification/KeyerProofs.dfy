/** Safety over every interleaving of user events, timer ticks, audio-thread requests and
    deferred calls, and bounds on how long and how often the keyer transmits. */
module KeyerProofs {
  import opened KeyerModel

  // ----- The invariant

  /** The button is never ahead of the transmitter; when it is behind, or the end of a
      transmission has been announced, a togglePTT is queued. */
  predicate PttOk(ptt: Ptt, queue: seq<Deferred>) {
    && (ptt.button ==> ptt.tx)
    && (ptt.tx && !ptt.button ==> TogglePtt in queue)
    && (ptt.ending ==> ptt.tx && !ptt.button)
  }

  /** An open raw recording has exactly one source, the modulator while transmitting; a
      closed one has none; at most one recording is open. */
  predicate RecordingOk(rec: Recording, tx: bool) {
    && (rec.rawOpen ==> rec.fromModulator == tx && rec.fromRadio == !tx)
    && (!rec.rawOpen ==> !rec.fromModulator && !rec.fromRadio)
    && rec.decoderOpen == rec.fromDecoder
    && !(rec.rawOpen && rec.decoderOpen)
  }

  function Limit(vk: Voice): nat { if vk.repeats < 0 then 0 else vk.repeats }

  /** Plays of a session: one per finished play, and the one under way. */
  predicate SessionOk(vk: Voice) {
    && vk.plays <= Limit(vk) + 1
    && (vk.keyer != Idle ==> vk.plays == vk.counter + (if vk.keyer == Tx then 1 else 0) && vk.counter <= Limit(vk))
    && (vk.keyer == SyncWait ==> vk.syncTime < SYNC_WAIT_TICKS)
  }

  /** A file is playing while the keyer transmits; otherwise stopping it is queued. */
  predicate PlayOk(s: State) {
    && s.playing == s.playFile
    && (s.vk.keyer == Tx ==> s.ptt.button && s.playing)
    && (s.playing && s.vk.keyer != Tx ==> StopPlay in s.queue)
  }

  predicate Inv(s: State) {
    PttOk(s.ptt, s.queue) && RecordingOk(s.rec, s.ptt.tx) && SessionOk(s.vk) && PlayOk(s)
  }

  // ----- Every step keeps it

  lemma ToggleSettles(s: State)
    requires s.ptt.ending ==> s.ptt.tx
    requires RecordingOk(s.rec, s.ptt.tx)
    ensures var t := Toggle(s);
      t.ptt.tx == t.ptt.button == s.ptt.button && !t.ptt.ending && RecordingOk(t.rec, t.ptt.tx) && PttOk(t.ptt, t.queue)
  {}

  lemma StartTxKeeps(s: State, file: FileCheck, monitorAudio: bool)
    requires PttOk(s.ptt, s.queue) && RecordingOk(s.rec, s.ptt.tx) && s.playing == s.playFile
    ensures var t := StartTx(s, file, monitorAudio);
      && PttOk(t.ptt, t.queue) && RecordingOk(t.rec, t.ptt.tx) && t.playing == t.playFile && t.queue == s.queue
      && (file == Playable ==> t.ptt.button && t.playing && t.vk.plays == s.vk.plays + 1)
      && (file != Playable ==> t == s)
      && t.vk.(plays := 0, monitor := false) == s.vk.(plays := 0, monitor := false)
  {}

  lemma IdleKeeps(s: State, e: KeyerEvent)
    requires Inv(s) && s.vk.keyer == Idle
    ensures Inv(InIdle(s, e))
  {}

  lemma RxKeeps(s: State, e: KeyerEvent)
    requires Inv(s) && s.vk.keyer == Rx
    ensures Inv(InRx(s, e))
  {
    if e.Tick? && e.sync != 1 { QuietKeeps(Unmonitored(s), e.file, e.monitorAudio); }
  }

  lemma QuietKeeps(s: State, file: FileCheck, monitorAudio: bool)
    requires Inv(s) && s.vk.keyer == Rx
    ensures Inv(InQuiet(s, file, monitorAudio))
  {
    StartTxKeeps(s.(vk := s.vk.(rxTime := s.vk.rxTime + 1)), file, monitorAudio);
  }

  lemma CutShortKeeps(s: State)
    requires s.vk.keyer == Tx && s.ptt.tx && s.playing == s.playFile
    requires RecordingOk(s.rec, s.ptt.tx) && SessionOk(s.vk)
    ensures Inv(InTx(s, SpaceBar))
  {}

  lemma ProcessKeeps(s: State, e: KeyerEvent)
    requires Inv(s) && (e == PlayFinished ==> s.vk.keyer != Tx)
    ensures Inv(Process(s, e))
  {
    match s.vk.keyer
    case Idle => IdleKeeps(s, e);
    case Tx => if e == SpaceBar { CutShortKeeps(s); }
    case Rx => RxKeeps(s, e);
    case SyncWait =>
  }

  /** When the call runs, it is no longer in the queue itself. */
  lemma StopPlayKeeps(s: State)
    requires PttOk(s.ptt, s.queue) && RecordingOk(s.rec, s.ptt.tx) && SessionOk(s.vk)
    requires s.playing == s.playFile && (s.vk.keyer == Tx ==> s.ptt.button && s.playing)
    ensures Inv(StopPlayFile(s))
  {}

  /** Flipping the button and toggling at once settles it. */
  lemma FlipKeeps(s: State)
    requires Inv(s) && s.vk.keyer != Tx
    ensures Inv(Toggle(FlipButton(s)))
  {}

  lemma RunDeferredKeeps(s: State)
    requires Inv(s) && s.queue != []
    ensures Inv(Step(s, RunDeferred))
    ensures s.queue[0] == TogglePtt ==> Step(s, RunDeferred).ptt.tx == Step(s, RunDeferred).ptt.button == s.ptt.button
  {
    var t := s.(queue := s.queue[1..]);
    assert forall c :: c in s.queue ==> c == s.queue[0] || c in t.queue;
    match s.queue[0]
    case TogglePtt => ToggleSettles(t);
    case StopPlay => StopPlayKeeps(t);
    case StopRecord =>
  }

  lemma StepKeeps(s: State, e: Event)
    requires Inv(s)
    ensures Inv(Step(s, e))
  {
    match e
    case PttButton => if s.vk.keyer == Tx { CutShortKeeps(FlipButton(s)); } else { FlipKeeps(s); }
    case Space => if s.vk.keyer == Idle { FlipKeeps(s); } else { ProcessKeeps(s, SpaceBar); }
    case KeyerButton(c, file) => ProcessKeeps(s, if s.vk.keyer == Idle then Start(c, file) else SpaceBar);
    case TimerTick(sync, file, monitorAudio) => ProcessKeeps(s, Tick(sync, file, monitorAudio));
    case RecordButton(choice) =>
    case PlaybackEnded => QueueKeeps(s, StopPlay);
    case RecordingLimit => QueueKeeps(s, StopRecord);
    case RunDeferred => if s.queue != [] { RunDeferredKeeps(s); }
  }

  lemma QueueKeeps(s: State, c: Deferred)
    requires Inv(s)
    ensures Inv(s.(queue := s.queue + [c]))
  {}

  // ----- Safety over every run

  lemma {:induction false} EveryRun(es: seq<Event>)
    ensures Inv(Run(INITIAL, es))
  {
    if es != [] {
      EveryRun(es[..|es| - 1]);
      StepKeeps(Run(INITIAL, es[..|es| - 1]), es[|es| - 1]);
    }
  }

  /** Transmitter and button agree, and no end of transmission is pending, in every
      reachable state with no togglePTT queued; an open raw recording always has exactly
      the source that matches the transmitter; the keyer transmits with its file playing,
      and a file that plays without it is about to be stopped. */
  lemma PttConverges(es: seq<Event>)
    ensures var s := Run(INITIAL, es);
      && (s.ptt.tx != s.ptt.button || s.ptt.ending ==> TogglePtt in s.queue)
      && (s.rec.rawOpen ==> s.rec.fromModulator != s.rec.fromRadio && s.rec.fromModulator == s.ptt.tx)
      && (s.vk.keyer == Tx ==> s.ptt.tx && s.playing && s.playFile)
      && (s.playing && s.vk.keyer != Tx ==> StopPlay in s.queue)
  {
    EveryRun(es);
  }

  /** No run of events plays the file more than repeats + 1 times after one start. */
  lemma PlaysBounded(es: seq<Event>)
    ensures var vk := Run(INITIAL, es).vk;
      && vk.plays <= Limit(vk) + 1
      && (vk.keyer != Idle ==> vk.plays == vk.counter + if vk.keyer == Tx then 1 else 0)
  {
    EveryRun(es);
  }

  /** In every reachable state, a play that finishes ends the session exactly when it was
      the last of repeats + 1. */
  lemma SessionEnds(es: seq<Event>)
    ensures var s := Run(INITIAL, es);
      s.vk.keyer == Tx ==> (StopPlayFile(s).vk.keyer == Idle <==> s.vk.plays == Limit(s.vk) + 1)
  {
    EveryRun(es);
  }

  // ----- Draining the queue

  function Weight(queue: seq<Deferred>): nat {
    if queue == [] then 0 else (if queue[0] == StopPlay then 2 else 1) + Weight(queue[1..])
  }

  lemma {:induction false} WeightOfAppend(queue: seq<Deferred>, c: Deferred)
    ensures Weight(queue + [c]) == Weight(queue) + if c == StopPlay then 2 else 1
  {
    if queue == [] {
      assert (queue + [c])[1..] == [];
    } else {
      assert (queue + [c])[1..] == queue[1..] + [c];
      WeightOfAppend(queue[1..], c);
    }
  }

  lemma DeferredShrinks(s: State)
    requires s.queue != []
    ensures Weight(Step(s, RunDeferred).queue) < Weight(s.queue)
  {
    WeightOfAppend(s.queue[1..], TogglePtt);
  }

  /** The event loop left alone until nothing is queued. */
  function Drain(s: State): State
    decreases Weight(s.queue)
  {
    if s.queue == [] then s else (DeferredShrinks(s); Drain(Step(s, RunDeferred)))
  }

  /** From any state of the invariant the deferred calls run out, and then the transmitter
      is as the button says and a file plays just while the keyer transmits. */
  lemma {:induction false} DrainSettles(s: State)
    requires Inv(s)
    ensures var t := Drain(s);
      t.queue == [] && Inv(t) && t.ptt.tx == t.ptt.button && !t.ptt.ending && (t.playing <==> t.vk.keyer == Tx)
    decreases Weight(s.queue)
  {
    if s.queue != [] {
      DeferredShrinks(s);
      RunDeferredKeeps(s);
      DrainSettles(Step(s, RunDeferred));
    }
  }

  /** Once asked for, the end of a recording and of a transmission come with the queue. */
  lemma {:induction false} DrainHonours(s: State)
    requires Inv(s)
    ensures StopRecord in s.queue || !s.rec.rawOpen ==> !Drain(s).rec.rawOpen
    ensures StopPlay in s.queue || s.vk.keyer != Tx ==> Drain(s).vk.keyer != Tx && !Drain(s).playing
    decreases Weight(s.queue)
  {
    DrainSettles(s);
    if s.queue != [] {
      DeferredShrinks(s);
      RunDeferredKeeps(s);
      assert forall c :: c in s.queue ==> c == s.queue[0] || c in s.queue[1..];
      DrainHonours(Step(s, RunDeferred));
    }
  }

  /** The audio thread's requests: at the limit a raw recording is closed and has no source
      left, and at the end of the file the keyer stops transmitting and the transmitter is
      off. */
  lemma RequestsHonoured(s: State)
    requires Inv(s)
    ensures var t := Drain(Step(s, RecordingLimit));
      !t.rec.rawOpen && !t.rec.fromRadio && !t.rec.fromModulator
    ensures var t := Drain(Step(s, PlaybackEnded));
      !t.playing && t.vk.keyer != Tx && t.ptt.tx == t.ptt.button
  {
    StepKeeps(s, RecordingLimit);
    DrainHonours(Step(s, RecordingLimit));
    DrainSettles(Step(s, RecordingLimit));
    StepKeeps(s, PlaybackEnded);
    DrainHonours(Step(s, PlaybackEnded));
    DrainSettles(Step(s, PlaybackEnded));
  }

  // ----- The receive gap

  predicate InGap(s: State) { s.vk.keyer == Rx || s.vk.keyer == SyncWait }

  /** Events that all happen inside one receive gap; the last may end it. */
  predicate Gap(s: State, es: seq<Event>) {
    es == [] || (Gap(s, es[..|es| - 1]) && InGap(Run(s, es[..|es| - 1])))
  }

  /** Timer ticks of a gap: all of them, those spent receiving without sync, those that
      acquire sync, and those that find sync still there while waiting. */
  datatype Tally = Tally(ticks: nat, quiet: nat, acquired: nat, held: nat)

  function Count(s: State, es: seq<Event>): Tally {
    if es == [] then Tally(0, 0, 0, 0)
    else
      var before := Run(s, es[..|es| - 1]);
      var c := Count(s, es[..|es| - 1]);
      match es[|es| - 1]
      case TimerTick(sync, _, _) =>
        var receiving := before.vk.keyer == Rx;
        Tally(c.ticks + 1, c.quiet + (if receiving && sync != 1 then 1 else 0),
              c.acquired + (if receiving && sync == 1 then 1 else 0),
              c.held + (if before.vk.keyer == SyncWait && sync != 0 then 1 else 0))
      case _ => c
  }

  function QuietLimit(vk: Voice): nat {
    if vk.pause <= 0 then 1 else TICKS_PER_SECOND * vk.pause
  }

  /** How the tally stands against the keyer's clocks. */
  predicate Accounted(start: State, now: State, c: Tally) {
    && now.vk.pause == start.vk.pause
    && c.quiet <= QuietLimit(start.vk)
    && c.ticks <= c.quiet + (SYNC_WAIT_TICKS + 1) * c.acquired
    && (InGap(now) ==> c.quiet <= now.vk.rxTime && c.quiet < QuietLimit(start.vk))
    && (now.vk.keyer == SyncWait ==>
          now.vk.syncTime < SYNC_WAIT_TICKS
          && c.ticks + SYNC_WAIT_TICKS - now.vk.syncTime <= c.quiet + (SYNC_WAIT_TICKS + 1) * c.acquired)
  }

  /** Outside the timer, a gap event leaves the clocks alone or ends the gap. */
  lemma OtherEventInGap(s: State, e: Event)
    requires InGap(s) && !e.TimerTick?
    ensures var t := Step(s, e);
      (t.vk.keyer == Idle && t.vk.pause == s.vk.pause) || t.vk.(monitor := false) == s.vk.(monitor := false)
  {}

  lemma TickInGap(start: State, s: State, c: Tally, sync: int, file: FileCheck, monitorAudio: bool)
    requires InGap(s) && Accounted(start, s, c)
    ensures var receiving := s.vk.keyer == Rx;
      Accounted(start, Step(s, TimerTick(sync, file, monitorAudio)),
        Tally(c.ticks + 1, c.quiet + (if receiving && sync != 1 then 1 else 0),
              c.acquired + (if receiving && sync == 1 then 1 else 0),
              c.held + (if s.vk.keyer == SyncWait && sync != 0 then 1 else 0)))
  {}

  lemma {:induction false} GapAccounted(s: State, es: seq<Event>)
    requires s.vk.keyer == Rx && s.vk.rxTime == 0 && Gap(s, es)
    ensures Accounted(s, Run(s, es), Count(s, es))
  {
    if es != [] {
      var init, e := es[..|es| - 1], es[|es| - 1];
      GapAccounted(s, init);
      if e.TimerTick? {
        TickInGap(s, Run(s, init), Count(s, init), e.sync, e.file, e.monitorAudio);
      } else {
        OtherEventInGap(Run(s, init), e);
      }
    }
  }

  /** From entering the receive gap, the ticks before the keyer transmits or goes idle are
      at most the configured pause (at least one tick) plus 51 for each time sync was
      acquired; the ticks without sync are bounded over all visits together. */
  lemma GapEnds(s: State, es: seq<Event>)
    requires s.vk.keyer == Rx && s.vk.rxTime == 0 && Gap(s, es)
    ensures Count(s, es).ticks <= QuietLimit(s.vk) + 51 * Count(s, es).acquired
    ensures Count(s, es).quiet <= QuietLimit(s.vk)
  {
    GapAccounted(s, es);
  }

  // ----- The length of the gap, in ticks of a tenth of a second

  /** The pause is kept, and the keyer's clock counts the ticks without sync and those that
      hold it; a gap left for transmission was left at the pause or later. */
  predicate Clocked(start: State, now: State, c: Tally) {
    && now.vk.pause == start.vk.pause
    && (InGap(now) ==> now.vk.rxTime == c.quiet + c.held)
    && (now.vk.keyer == Tx ==> c.quiet >= 1 && c.quiet + c.held >= 10 * start.vk.pause)
  }

  lemma {:induction false} GapClocked(s: State, es: seq<Event>)
    requires s.vk.keyer == Rx && s.vk.rxTime == 0 && Gap(s, es)
    ensures Clocked(s, Run(s, es), Count(s, es))
  {
    if es != [] {
      var init, e := es[..|es| - 1], es[|es| - 1];
      GapClocked(s, init);
      if !e.TimerTick? { OtherEventInGap(Run(s, init), e); }
    }
  }

  /** A tick without sync ends the gap in transmission exactly when the ticks without sync
      and those that held it, with this one, come to ten a second of the configured pause
      and the file can be played; otherwise it goes on, or ends for want of a file. */
  lemma QuietTickEnds(s: State, es: seq<Event>)
    requires s.vk.keyer == Rx && s.vk.rxTime == 0 && es != [] && Gap(s, es)
    requires Run(s, es[..|es| - 1]).vk.keyer == Rx && es[|es| - 1].TimerTick? && es[|es| - 1].sync != 1
    ensures var c, now, file := Count(s, es), Run(s, es).vk.keyer, es[|es| - 1].file;
      var due := c.quiet + c.held >= 10 * s.vk.pause;
      now == if !due then Rx else if file == Playable then Tx else Idle
  {
    GapClocked(s, es[..|es| - 1]);
  }

  /** Leaving the gap for transmission takes the whole pause, whatever happens in it. */
  lemma TxTakesPause(s: State, es: seq<Event>)
    requires s.vk.keyer == Rx && s.vk.rxTime == 0 && Gap(s, es) && Run(s, es).vk.keyer == Tx
    ensures Count(s, es).quiet >= 1 && Count(s, es).quiet + Count(s, es).held >= 10 * s.vk.pause
  {
    GapClocked(s, es);
  }

  predicate QuietTicks(es: seq<Event>) {
    forall i :: 0 <= i < |es| ==> es[i].TimerTick? && es[i].sync != 1 && es[i].file == Playable
  }

  /** From entering the gap, n ticks without sync lead to transmission exactly when n is at
      least one and at least ten times the pause in seconds. */
  lemma {:induction false} QuietGap(s: State, es: seq<Event>)
    requires s.vk.keyer == Rx && s.vk.rxTime == 0 && QuietTicks(es)
    ensures var t, n := Run(s, es), |es|;
      if n >= 1 && n >= 10 * s.vk.pause then t.vk.keyer == Tx
      else t.vk.keyer == Rx && t.vk.rxTime == n && t.vk.pause == s.vk.pause
  {
    if es != [] { QuietGap(s, es[..|es| - 1]); }
  }

  /** Sync: one tick with it while receiving starts the wait; held for n ticks it ends the
      session exactly when n is at least 50; lost before, it leads back to receiving with the
      clock as it stands. */
  lemma {:induction false} SyncHeld(s: State, es: seq<Event>)
    requires s.vk.keyer == SyncWait && s.vk.syncTime == 0
    requires forall i :: 0 <= i < |es| ==> es[i].TimerTick? && es[i].sync != 0
    ensures var t, n := Run(s, es), |es|;
      if n >= 50 then t.vk.keyer == Idle
      else t.vk.keyer == SyncWait && t.vk.syncTime == n && t.vk.rxTime == s.vk.rxTime + n
  {
    if es != [] { SyncHeld(s, es[..|es| - 1]); }
  }

  lemma SyncComesAndGoes(s: State, sync: int, file: FileCheck, monitorAudio: bool)
    requires InGap(s) && (s.vk.keyer == SyncWait ==> s.vk.syncTime < 50)
    ensures var t := Step(s, TimerTick(sync, file, monitorAudio));
      && (s.vk.keyer == Rx && sync == 1 ==>
            t.vk.keyer == SyncWait && t.vk.syncTime == 0 && t.vk.rxTime == s.vk.rxTime && t.ptt == s.ptt)
      && (s.vk.keyer == SyncWait && sync == 0 ==>
            t.vk.keyer == Rx && t.vk.rxTime == s.vk.rxTime && t.ptt == s.ptt)
  {}

  // ----- Starting and stopping

  /** The keyer button on an idle keyer: a playable file is on the air with the configured
      pause and repeats, and any other changes nothing that is heard. */
  lemma StartPlays(s: State, c: Config, file: FileCheck)
    requires Inv(s) && s.vk.keyer == Idle
    ensures var t := Step(s, KeyerButton(c, file));
      if file == Playable then
        && t.vk.keyer == Tx && t.ptt.button && t.ptt.tx && t.playing && t.vk.plays == 1
        && t.vk.counter == 0 && t.vk.pause == c.pause && t.vk.repeats == c.repeats
        && t.vk.monitor == c.monitorAudio
      else t.vk.keyer == Idle && t.ptt == s.ptt && t.playing == s.playing && t.rec == s.rec && t.queue == s.queue
  {}

  /** A timer tick while the keyer does not transmit leaves the monitor on exactly when it
      starts a transmission with monitoring configured. */
  lemma MonitorFollows(s: State, sync: int, file: FileCheck, monitorAudio: bool)
    requires s.vk.keyer != Tx
    ensures var t := Step(s, TimerTick(sync, file, monitorAudio)).vk;
      t.monitor <==> t.keyer == Tx && monitorAudio
  {}

  /** A file played to its end: the button is let go and the end of the transmission
      announced, the toggle is queued behind what waits, and the keyer is done after the last
      repeat and otherwise enters the gap with its clock at zero. */
  lemma FileFinishes(s: State)
    requires Inv(s) && s.vk.keyer == Tx && s.queue != [] && s.queue[0] == StopPlay
    ensures var t, n := Step(s, RunDeferred), s.vk.counter + 1;
      && !t.playing && !t.playFile && t.ptt == Ptt(false, true, true) && t.rec == s.rec
      && t.queue == s.queue[1..] + [TogglePtt] && t.vk.counter == n
      && t.vk.pause == s.vk.pause && t.vk.repeats == s.vk.repeats && t.vk.plays == s.vk.plays
      && if n > s.vk.repeats then t.vk.keyer == Idle else t.vk.keyer == Rx && t.vk.rxTime == 0
  {}

  /** Space bar and keyer button end any gap at once, and change nothing but the keyer. */
  lemma GapCutShort(s: State, c: Config, file: FileCheck)
    requires InGap(s)
    ensures Step(s, Space) == Step(s, KeyerButton(c, file)) == s.(vk := s.vk.(keyer := Idle, monitor := false))
  {}

  /** Space bar, keyer button and PTT button end a transmission of the keyer: the transmitter
      is off, the keyer idle, and stopping the file queued. */
  lemma TransmissionCutShort(s: State, c: Config, file: FileCheck, e: Event)
    requires Inv(s) && s.vk.keyer == Tx && (e == Space || e == PttButton || e == KeyerButton(c, file))
    ensures var t := Step(s, e);
      t.vk.keyer == Idle && !t.ptt.button && !t.ptt.tx && !t.ptt.ending && t.queue == s.queue + [StopPlay]
  {}

  /** A press of the PTT button or, with the keyer idle, of the space bar turns the
      transmitter over, and an open raw recording changes source with it. */
  lemma PressTurnsOver(s: State, e: Event)
    requires Inv(s) && ((e == PttButton && s.vk.keyer != Tx) || (e == Space && s.vk.keyer == Idle))
    ensures var t := Step(s, e);
      && t.ptt.tx == t.ptt.button == !s.ptt.button && t.vk == s.vk && t.queue == s.queue
      && t.rec.rawOpen == s.rec.rawOpen
      && (t.rec.rawOpen ==> t.rec.fromModulator == t.ptt.tx && t.rec.fromRadio == !t.ptt.tx)
      && t.rec.decoderOpen == s.rec.decoderOpen && t.playing == s.playing
  {}

  /** The record button closes the recording there is; with none it opens the one chosen,
      from the source that matches the transmitter, and a refused or failed one changes
      nothing. */
  lemma RecordButtonTurnsOver(s: State, choice: RecordChoice)
    requires Inv(s)
    ensures var r, t := s.rec, Step(s, RecordButton(choice));
      && t.(rec := s.rec) == s
      && (r.rawOpen || r.decoderOpen ==> t.rec == Recording(false, false, false, false, false))
      && (!r.rawOpen && !r.decoderOpen ==>
            match choice
            case Cancelled => t.rec == r
            case Raw(ok) => t.rec == if ok then Recording(true, !s.ptt.tx, s.ptt.tx, false, false) else r
            case Decoded(ok) => t.rec == if ok then Recording(false, false, false, true, true) else r)
  {}
}
