/** The MainFrame handlers that drive push-to-talk, the voice keyer and recordings, as
    methods that update the shared flags in place. */
module MainFrame {
  import opened KeyerModel
  import KeyerProofs

  class Frame {
    var button: bool
    var tx: bool
    var ending: bool
    var keyer: Keyer
    var repeats: int
    var counter: nat
    var pause: int
    var rxTime: nat
    var syncTime: nat
    var playing: bool
    var playFile: bool
    var monitor: bool
    var plays: nat
    var rawOpen: bool
    var fromRadio: bool
    var fromModulator: bool
    var decoderOpen: bool
    var fromDecoder: bool
    var queue: seq<Deferred>
    /** g_recVoiceKeyerFile, g_sfRecMicFile and vkFileName_. */
    var newFile: NewFile

    function Snapshot(): State
      reads this
    {
      State(Ptt(button, tx, ending), Voice(keyer, repeats, counter, pause, rxTime, syncTime, monitor, plays),
            playing, playFile, Recording(rawOpen, fromRadio, fromModulator, decoderOpen, fromDecoder), queue)
    }

    /** The invariant of every reachable state. */
    predicate Valid()
      reads this
    {
      KeyerProofs.Inv(Snapshot())
    }

    /** What the handler of an event promises: its step, and the invariant kept. */
    twostate predicate Stepped(e: Event)
      reads this
    {
      Snapshot() == Step(old(Snapshot()), e) && newFile == old(newFile) && (old(Valid()) ==> Valid())
    }

    constructor ()
      ensures Snapshot() == INITIAL && Valid()
    {
      button, tx, ending, keyer := false, false, false, Keyer.Idle;
      repeats, counter, pause, rxTime, syncTime := 0, 0, 0, 0, 0;
      playing, playFile, newFile, monitor, plays := false, false, NewFile(false, false, ""), false, 0;
      rawOpen, fromRadio, fromModulator, decoderOpen, fromDecoder := false, false, false, false, false;
      queue := [];
    }

    method TogglePTT()
      modifies this`tx, this`ending, this`fromRadio, this`fromModulator
      ensures Snapshot() == Toggle(old(Snapshot()))
    {
      if tx {
        tx := false;
        ending := false;
      }
      var newTx := button;
      if rawOpen {
        if !newTx {
          fromModulator := false;
          fromRadio := true;
        } else {
          fromRadio := false;
          fromModulator := true;
        }
      }
      if newTx {
        ending := false;
        tx := true;
      }
    }

    method VoiceKeyerStartTx(file: FileCheck, monitorAudio: bool) returns (next: Keyer)
      modifies this`button, this`tx, this`ending, this`fromRadio, this`fromModulator
      modifies this`playing, this`playFile, this`monitor, this`plays
      ensures Snapshot() == StartTx(old(Snapshot()), file, monitorAudio) && next == AfterStart(file)
    {
      if file == CannotOpen {
        return Keyer.Idle;
      }
      if file == RateTooLow || file == NotMono {
        return Keyer.Idle;
      }
      playFile := true;
      playing := true;
      plays := plays + 1;
      if !button {
        button := true;
        TogglePTT();
      }
      if monitorAudio {
        monitor := true;
      }
      return Keyer.Tx;
    }

    method SampleConfig(c: Config)
      modifies this`pause, this`repeats, this`counter, this`plays
      ensures Snapshot() == NewSession(old(Snapshot()), c)
    {
      pause := c.pause;
      repeats := c.repeats;
      counter, plays := 0, 0;
    }

    method OnIdle(e: KeyerEvent)
      requires keyer == Keyer.Idle
      modifies this`button, this`tx, this`ending, this`fromRadio, this`fromModulator
      modifies this`playing, this`playFile, this`monitor, this`plays
      modifies this`pause, this`repeats, this`counter, this`keyer
      ensures Snapshot() == InIdle(old(Snapshot()), e)
    {
      monitor := false;
      if e.Start? {
        SampleConfig(e.config);
        keyer := VoiceKeyerStartTx(e.file, e.config.monitorAudio);
      }
    }

    method OnTx(e: KeyerEvent)
      requires keyer == Keyer.Tx
      modifies this`button, this`tx, this`ending, this`fromRadio, this`fromModulator
      modifies this`keyer, this`queue, this`counter, this`rxTime
      ensures Snapshot() == InTx(old(Snapshot()), e)
    {
      if e == SpaceBar {
        DropPtt();
        keyer := Keyer.Idle;
        queue := queue + [StopPlay];
      }
      if e == PlayFinished {
        EndPlay();
      }
    }

    method DropPtt()
      modifies this`button, this`tx, this`ending, this`fromRadio, this`fromModulator
      ensures Snapshot() == Toggle(Release(old(Snapshot())))
    {
      button := false;
      ending := true;
      TogglePTT();
    }

    method EndPlay()
      modifies this`button, this`ending, this`keyer, this`queue, this`counter, this`rxTime
      ensures !button && ending && queue == old(queue) + [TogglePtt] && counter == old(counter) + 1
      ensures if counter > repeats then keyer == Keyer.Idle && rxTime == old(rxTime)
        else keyer == Keyer.Rx && rxTime == 0
    {
      button := false;
      ending := true;
      queue := queue + [TogglePtt];
      counter := counter + 1;
      if counter > repeats {
        keyer := Keyer.Idle;
      } else {
        rxTime := 0;
        keyer := Keyer.Rx;
      }
    }

    method QuietTick(file: FileCheck, monitorAudio: bool)
      requires keyer == Keyer.Rx
      modifies this`button, this`tx, this`ending, this`fromRadio, this`fromModulator
      modifies this`playing, this`playFile, this`monitor, this`plays
      modifies this`keyer, this`rxTime
      ensures Snapshot() == InQuiet(old(Snapshot()), file, monitorAudio)
    {
      rxTime := rxTime + 1;
      if rxTime >= TICKS_PER_SECOND * pause {
        keyer := VoiceKeyerStartTx(file, monitorAudio);
      }
    }

    method OnRx(e: KeyerEvent)
      requires keyer == Keyer.Rx
      modifies this`button, this`tx, this`ending, this`fromRadio, this`fromModulator
      modifies this`playing, this`playFile, this`monitor, this`plays
      modifies this`keyer, this`rxTime, this`syncTime
      ensures Snapshot() == InRx(old(Snapshot()), e)
    {
      monitor := false;
      if e.Tick? {
        if e.sync == 1 {
          syncTime := 0;
          keyer := Keyer.SyncWait;
        } else {
          QuietTick(e.file, e.monitorAudio);
        }
      }
      if e == SpaceBar {
        keyer := Keyer.Idle;
      }
    }

    method OnSyncWait(e: KeyerEvent)
      requires keyer == Keyer.SyncWait
      modifies this`monitor, this`keyer, this`rxTime, this`syncTime
      ensures Snapshot() == InSyncWait(old(Snapshot()), e)
    {
      monitor := false;
      if e == SpaceBar {
        keyer := Keyer.Idle;
      }
      if e.Tick? {
        if e.sync == 0 {
          keyer := Keyer.Rx;
        } else {
          rxTime := rxTime + 1;
          syncTime := syncTime + 1;
        }
        if syncTime >= SYNC_WAIT_TICKS {
          keyer := Keyer.Idle;
        }
      }
    }

    method VoiceKeyerProcessEvent(e: KeyerEvent)
      modifies this
      ensures Snapshot() == Process(old(Snapshot()), e) && newFile == old(newFile)
    {
      match keyer {
        case Idle => OnIdle(e);
        case Tx => OnTx(e);
        case Rx => OnRx(e);
        case SyncWait => OnSyncWait(e);
      }
    }

    method StopPlayFileToMicIn()
      modifies this
      ensures Snapshot() == StopPlayFile(old(Snapshot())) && newFile == old(newFile)
    {
      if playing {
        playing := false;
        playFile := false;
        VoiceKeyerProcessEvent(PlayFinished);
      }
    }

    method StopRecFileFromRadio()
      modifies this`rawOpen, this`fromRadio, this`fromModulator
      ensures Snapshot() == StopRawRecording(old(Snapshot()))
    {
      if rawOpen {
        fromRadio := false;
        fromModulator := false;
        rawOpen := false;
      }
    }

    method OnTogBtnRecord(choice: RecordChoice)
      modifies this`rawOpen, this`fromRadio, this`fromModulator, this`decoderOpen, this`fromDecoder
      ensures Stepped(RecordButton(choice))
    {
      KeepsIfValid(Snapshot(), RecordButton(choice));
      if rawOpen {
        StopRecFileFromRadio();
      } else if decoderOpen {
        fromDecoder := false;
        decoderOpen := false;
      } else if choice == Decoded(true) {
        decoderOpen := true;
        fromDecoder := true;
      } else if choice == Raw(true) {
        OpenRawRecording();
      }
    }

    method OpenRawRecording()
      modifies this`rawOpen, this`fromRadio, this`fromModulator
      ensures rawOpen && fromModulator == tx && fromRadio == !tx
    {
      rawOpen := true;
      if !tx {
        fromModulator := false;
        fromRadio := true;
      } else {
        fromRadio := false;
        fromModulator := true;
      }
    }

    /** The button's value has already flipped when its handler runs. */
    method OnTogBtnPTT()
      modifies this
      ensures Stepped(PttButton)
    {
      KeepsIfValid(Snapshot(), PttButton);
      button := !button;
      if keyer == Keyer.Tx {
        VoiceKeyerProcessEvent(SpaceBar);
      } else {
        TogglePTT();
      }
    }

    method OnSpaceBar()
      modifies this
      ensures Stepped(Space)
    {
      KeepsIfValid(Snapshot(), Space);
      if keyer == Keyer.Idle {
        if button {
          button := false;
        } else {
          button := true;
        }
        TogglePTT();
      } else {
        VoiceKeyerProcessEvent(SpaceBar);
      }
    }

    /** While a new keyer file is being recorded the click ends that and closes the file.
        Otherwise an idle keyer starts with the file there is or the user chooses, and
        refusing to choose leaves it idle without a file. */
    method OnTogBtnVoiceKeyerClick(config: Config, file: KeyerFile)
      modifies this
      ensures if old(newFile.recording) then newFile == NewFile(false, false, old(newFile.name))
        else if old(keyer) != Keyer.Idle then newFile == old(newFile)
        else newFile == old(newFile).(name := if file.Refused? then "" else file.name)
      ensures if old(newFile.recording) || (old(keyer) == Keyer.Idle
          && file.Refused?) then Snapshot() == old(Snapshot())
        else Snapshot() == Step(old(Snapshot()), ClickOf(config, file)) && (old(Valid()) ==> Valid())
    {
      KeepsIfValid(Snapshot(), ClickOf(config, file));
      if newFile.recording {
        newFile := newFile.(recording := false, open := false);
      } else if keyer == Keyer.Idle {
        if file.Refused? {
          newFile := newFile.(name := "");
          return;
        }
        newFile := newFile.(name := file.name);
        VoiceKeyerProcessEvent(Start(config, file.check));
      } else {
        VoiceKeyerProcessEvent(SpaceBar);
      }
    }

    /** A file that opens is recorded to from now on and becomes the keyer's file; one that
        does not open leaves no file open. */
    method OnRecordNewVoiceKeyerFile(choice: FileChoice)
      modifies this`newFile
      ensures match choice
        case Dismissed => newFile == old(newFile)
        case Named(soundFile, opens) =>
          newFile == if opens then NewFile(true, true, soundFile) else old(newFile).(open := false)
    {
      if choice.Dismissed? {
        return;
      }
      newFile := newFile.(open := choice.opens);
      if !choice.opens {
        return;
      }
      newFile := newFile.(recording := true);
      newFile := newFile.(name := choice.soundFile);
    }

    /** The timer's part: the keyer gets a tick. */
    method OnTimer(sync: int, file: FileCheck, monitorAudio: bool)
      modifies this
      ensures Stepped(TimerTick(sync, file, monitorAudio))
    {
      KeepsIfValid(Snapshot(), TimerTick(sync, file, monitorAudio));
      VoiceKeyerProcessEvent(Tick(sync, file, monitorAudio));
    }

    /** The audio thread asks for one of its two deferred calls. */
    method CallAfter(c: Deferred)
      requires c == StopPlay || c == StopRecord
      modifies this`queue
      ensures Stepped(if c == StopPlay then PlaybackEnded else RecordingLimit)
    {
      KeepsIfValid(Snapshot(), if c == StopPlay then PlaybackEnded else RecordingLimit);
      queue := queue + [c];
    }

    /** The event loop runs the oldest deferred call. */
    method RunPending()
      modifies this
      ensures Stepped(RunDeferred)
    {
      KeepsIfValid(Snapshot(), RunDeferred);
      if queue != [] {
        var c := queue[0];
        queue := queue[1..];
        match c {
          case TogglePtt => TogglePTT();
          case StopPlay => StopPlayFileToMicIn();
          case StopRecord => StopRecFileFromRadio();
        }
      }
    }
  }

  /** The event of a click on the keyer button that is not about a new file. */
  function ClickOf(config: Config, file: KeyerFile): Event {
    KeyerButton(config, if file.Chosen? then file.check else CannotOpen)
  }

  lemma KeepsIfValid(s: State, e: Event)
    ensures KeyerProofs.Inv(s) ==> KeyerProofs.Inv(Step(s, e))
  {
    if KeyerProofs.Inv(s) { KeyerProofs.StepKeeps(s, e); }
  }
}
