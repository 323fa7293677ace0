/** Voice keyer, push-to-talk and recording (src/voicekeyer.cpp, src/ongui.cpp,
    src/playrec.cpp) as one state machine over events. Calls deferred with CallAfter wait
    in an explicit queue. Time is counted in timer ticks of DT = 0.1 s. */
module KeyerModel {

  datatype Keyer = Idle | Tx | Rx | SyncWait

  datatype Deferred = TogglePtt | StopPlay | StopRecord

  const TICKS_PER_SECOND := 10
  const SYNC_WAIT_TICKS := 5 * TICKS_PER_SECOND

  /** m_btnTogPTT's value, g_tx and endingTx. */
  datatype Ptt = Ptt(button: bool, tx: bool, ending: bool)

  /** The keyer's own variables, with its configured pause in seconds and its times in
      ticks; monitor is g_voice_keyer_tx; plays counts the files started since the last
      start. */
  datatype Voice = Voice(keyer: Keyer, repeats: int, counter: nat, pause: int, rxTime: nat, syncTime: nat,
                         monitor: bool, plays: nat)

  /** The recording handles (open or not) and source flags. */
  datatype Recording = Recording(rawOpen: bool, fromRadio: bool, fromModulator: bool, decoderOpen: bool,
                                 fromDecoder: bool)

  /** playing is g_playFileToMicIn; playFile, whether g_sfPlayFile is set. */
  datatype State = State(ptt: Ptt, vk: Voice, playing: bool, playFile: bool, rec: Recording, queue: seq<Deferred>)

  const INITIAL: State := State(
    Ptt(false, false, false), Voice(Idle, 0, 0, 0, 0, 0, false, 0), false, false,
    Recording(false, false, false, false, false), [])

  // ----- Push to talk

  /** togglePTT as one step: its waiting loops only let time pass. */
  function Toggle(s: State): State {
    var b := s.ptt.button;
    s.(ptt := Ptt(b, b, s.ptt.ending && !s.ptt.tx && !b),
       rec := if s.rec.rawOpen then s.rec.(fromRadio := !b, fromModulator := b) else s.rec)
  }

  // ----- The keyer

  /** What opening the voice keyer file comes to. */
  datatype FileCheck = CannotOpen | RateTooLow | NotMono | Playable

  /** VoiceKeyerStartTx, apart from the keyer state it returns. */
  function StartTx(s: State, file: FileCheck, monitorAudio: bool): State {
    if file != Playable then s
    else
      var t := s.(playFile := true, playing := true,
                  vk := s.vk.(plays := s.vk.plays + 1, monitor := s.vk.monitor || monitorAudio));
      if t.ptt.button then t else Toggle(t.(ptt := t.ptt.(button := true)))
  }

  /** The keyer button asks for a file when there is none; the user may refuse. */
  datatype KeyerFile = Refused | Chosen(name: string, check: FileCheck)

  /** The recording of a new keyer file: whether it is going on, whether its file is open,
      and the name of the keyer's file. */
  datatype NewFile = NewFile(recording: bool, open: bool, name: string)

  /** The dialog for a new keyer file: dismissed, or a name whose file opens or not. */
  datatype FileChoice = Dismissed | Named(soundFile: string, opens: bool)

  function AfterStart(file: FileCheck): Keyer { if file == Playable then Tx else Idle }

  function Enter(s: State, keyer: Keyer): State { s.(vk := s.vk.(keyer := keyer)) }

  /** Configuration sampled when the keyer starts. */
  datatype Config = Config(pause: int, repeats: int, monitorAudio: bool)

  datatype KeyerEvent =
    | Start(config: Config, file: FileCheck)
    | SpaceBar
    | PlayFinished
    | Tick(sync: int, file: FileCheck, monitorAudio: bool)

  function Unmonitored(s: State): State { s.(vk := s.vk.(monitor := false)) }

  function NewSession(s: State, c: Config): State {
    s.(vk := s.vk.(pause := c.pause, repeats := c.repeats, counter := 0, plays := 0))
  }

  function InIdle(s: State, e: KeyerEvent): State {
    var t := Unmonitored(s);
    match e
    case Start(c, file) => Enter(StartTx(NewSession(t, c), file, c.monitorAudio), AfterStart(file))
    case _ => t
  }

  /** The button is let go and the end of transmission announced. */
  function Release(s: State): State { s.(ptt := s.ptt.(button := false, ending := true)) }

  function AfterPlay(s: State): State {
    var t := Release(s);
    var n := s.vk.counter + 1;
    t.(queue := t.queue + [TogglePtt],
       vk := if n > s.vk.repeats then s.vk.(counter := n, keyer := Idle)
             else s.vk.(counter := n, rxTime := 0, keyer := Rx))
  }

  function InTx(s: State, e: KeyerEvent): State {
    match e
    case SpaceBar =>
      var t := Enter(Toggle(Release(s)), Idle);
      t.(queue := t.queue + [StopPlay])
    case PlayFinished => AfterPlay(s)
    case _ => s
  }

  /** A timer tick without sync while receiving. */
  function InQuiet(s: State, file: FileCheck, monitorAudio: bool): State {
    var t := s.(vk := s.vk.(rxTime := s.vk.rxTime + 1));
    if t.vk.rxTime < TICKS_PER_SECOND * t.vk.pause then t
    else Enter(StartTx(t, file, monitorAudio), AfterStart(file))
  }

  function InRx(s: State, e: KeyerEvent): State {
    var t := Unmonitored(s);
    match e
    case Tick(sync, file, monitorAudio) =>
      if sync == 1 then t.(vk := t.vk.(keyer := SyncWait, syncTime := 0)) else InQuiet(t, file, monitorAudio)
    case SpaceBar => Enter(t, Idle)
    case _ => t
  }

  function InSyncWait(s: State, e: KeyerEvent): State {
    var t := Unmonitored(s);
    match e
    case Tick(sync, _, _) =>
      var vk := if sync == 0 then t.vk.(keyer := Rx)
                else t.vk.(rxTime := t.vk.rxTime + 1, syncTime := t.vk.syncTime + 1);
      t.(vk := if vk.syncTime >= SYNC_WAIT_TICKS then vk.(keyer := Idle) else vk)
    case SpaceBar => Enter(t, Idle)
    case _ => t
  }

  /** VoiceKeyerProcessEvent. */
  function Process(s: State, e: KeyerEvent): State {
    match s.vk.keyer
    case Idle => InIdle(s, e)
    case Tx => InTx(s, e)
    case Rx => InRx(s, e)
    case SyncWait => InSyncWait(s, e)
  }

  // ----- Playing and recording

  function StopPlayFile(s: State): State {
    if s.playing then Process(s.(playing := false, playFile := false), PlayFinished) else s
  }

  function StopRawRecording(s: State): State {
    if s.rec.rawOpen then s.(rec := s.rec.(rawOpen := false, fromRadio := false, fromModulator := false)) else s
  }

  /** What the recording dialog and opening its file come to. */
  datatype RecordChoice = Cancelled | Raw(ok: bool) | Decoded(ok: bool)

  function ToggleRecording(s: State, choice: RecordChoice): State {
    if s.rec.rawOpen then StopRawRecording(s)
    else if s.rec.decoderOpen then s.(rec := s.rec.(decoderOpen := false, fromDecoder := false))
    else
      match choice
      case Raw(true) => s.(rec := s.rec.(rawOpen := true, fromRadio := !s.ptt.tx, fromModulator := s.ptt.tx))
      case Decoded(true) => s.(rec := s.rec.(decoderOpen := true, fromDecoder := true))
      case _ => s
  }

  // ----- Events

  /** What can happen between two returns to the event loop. */
  datatype Event =
    | PttButton                                       // click: the button flips, then its handler runs
    | Space                                           // space bar in the main window
    | KeyerButton(config: Config, file: FileCheck)    // keyer button, with a file to play
    | TimerTick(sync: int, file: FileCheck, monitorAudio: bool)
    | RecordButton(choice: RecordChoice)
    | PlaybackEnded                                   // the audio thread asks for StopPlayFileToMicIn
    | RecordingLimit                                  // the audio thread asks for StopRecFileFromRadio
    | RunDeferred                                     // the oldest queued call runs

  function RunCall(s: State, c: Deferred): State {
    match c
    case TogglePtt => Toggle(s)
    case StopPlay => StopPlayFile(s)
    case StopRecord => StopRawRecording(s)
  }

  function FlipButton(s: State): State { s.(ptt := s.ptt.(button := !s.ptt.button)) }

  function Step(s: State, e: Event): State {
    match e
    case PttButton =>
      var t := FlipButton(s);
      if t.vk.keyer == Tx then Process(t, SpaceBar) else Toggle(t)
    case Space => if s.vk.keyer == Idle then Toggle(FlipButton(s)) else Process(s, SpaceBar)
    case KeyerButton(c, file) => if s.vk.keyer == Idle then Process(s, Start(c, file)) else Process(s, SpaceBar)
    case TimerTick(sync, file, monitorAudio) => Process(s, Tick(sync, file, monitorAudio))
    case RecordButton(choice) => ToggleRecording(s, choice)
    case PlaybackEnded => s.(queue := s.queue + [StopPlay])
    case RecordingLimit => s.(queue := s.queue + [StopRecord])
    case RunDeferred => if s.queue == [] then s else RunCall(s.(queue := s.queue[1..]), s.queue[0])
  }

  function Run(s: State, es: seq<Event>): State {
    if es == [] then s else Step(Run(s, es[..|es| - 1]), es[|es| - 1])
  }
}
