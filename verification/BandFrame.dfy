/** The MainFrame handlers of the attenuation levels, as methods that update the levels and
    maps in place. Each handler of an event also carries the refinement of BandProofs. */
module BandFrame {
  import opened BandLevels
  import opened BandProofs

  class LevelControls {
    var txLevel: int
    var tuneLevel: int
    var txAtten: map<string, int>
    var tuneAtten: map<string, int>
    var transmitLevel: int
    var tuneDefault: int
    var txLoaded: int
    var tuneLoaded: int
    var lastBand: Band
    var reportingFrequency: nat
    var tuning: bool

    function Snapshot(): Levels
      reads this
    {
      Levels(Store(txLevel, txAtten, transmitLevel, txLoaded), Store(tuneLevel, tuneAtten, tuneDefault, tuneLoaded),
             lastBand, reportingFrequency, tuning)
    }

    /** What a handler promises: on levels that are Ready, an event on the amateur bands
        does what it does to the write-through memory. */
    twostate predicate Refined(e: Event)
      reads this
    {
      old(Ready(Snapshot())) && OnBand(e) ==>
        Ready(Snapshot()) && Abs(Snapshot()) == MemoryNext(old(Abs(Snapshot())), e)
    }

    /** As set up from the configuration at program start. */
    constructor (transmit: int, tune: int, txSaved: map<string, int>, tuneSaved: map<string, int>, hz: nat)
      ensures Snapshot() == Levels(Store(transmit, txSaved, transmit, -200), Store(tune, tuneSaved, tune, -200),
          Other, hz,
                                   false)
    {
      txLevel, txAtten, transmitLevel, txLoaded := transmit, txSaved, transmit, -200;
      tuneLevel, tuneAtten, tuneDefault, tuneLoaded := tune, tuneSaved, tune, -200;
      lastBand, reportingFrequency, tuning := Other, hz, false;
    }

    method AutoSaveCurrentBandLevels()
      modifies this`txAtten, this`tuneAtten
      ensures var s, name := old(Snapshot()), Name(lastBand);
        Snapshot() == if name == "" then s else s.(tx := AutoSave(s.tx, name), tune := AutoSave(s.tune, name))
    {
      var bandName := Name(lastBand);
      if bandName == "" {
        return;
      }
      if bandName in txAtten {
        txAtten := txAtten[bandName := txLevel];
      }
      if bandName in tuneAtten {
        tuneAtten := tuneAtten[bandName := tuneLevel];
      }
    }

    method LoadTxAttenForBand(band: Band)
      modifies this`txLevel, this`txLoaded
      ensures Snapshot() == var s := old(Snapshot()); s.(tx := LoadBand(s.tx, Name(band)))
    {
      var bandName := Name(band);
      txLevel := if bandName in txAtten then txAtten[bandName] else transmitLevel;
      txLoaded := txLevel;
    }

    method LoadTuneAttenForBand(band: Band)
      modifies this`tuneLevel, this`tuneLoaded
      ensures Snapshot() == var s := old(Snapshot()); s.(tune := LoadBand(s.tune, Name(band)))
    {
      var bandName := Name(band);
      tuneLevel := if bandName in tuneAtten then tuneAtten[bandName] else tuneDefault;
      tuneLoaded := tuneLevel;
    }

    method ApplyTxLevel()
      modifies this`txLevel, this`tuneLevel, this`transmitLevel, this`tuneDefault
      ensures Snapshot() == Apply(old(Snapshot()))
    {
      if tuning {
        if tuneLevel < MIN { tuneLevel := MIN; }
        if tuneLevel > MAX { tuneLevel := MAX; }
      } else {
        if txLevel < MIN { txLevel := MIN; }
        if txLevel > MAX { txLevel := MAX; }
      }
      var bandName := Name(FilterFor(reportingFrequency));
      if tuning {
        if bandName == "" || bandName !in tuneAtten {
          tuneDefault := tuneLevel;
        }
      } else {
        if bandName == "" || bandName !in txAtten {
          transmitLevel := txLevel;
        }
      }
    }

    method OnChangeReportFrequency(typed: nat)
      modifies this
      ensures Snapshot() == SetFrequency(old(Snapshot()), typed) && Refined(Frequency(typed))
    {
      RefinesIfReady(Snapshot(), Frequency(typed));
      var wholeFreq := typed / 100;
      if typed % 100 >= 50 {
        wholeFreq := wholeFreq + 1;
      }
      reportingFrequency := wholeFreq * 100;
      if reportingFrequency > 0 {
        var newBand := FilterFor(reportingFrequency);
        if newBand != Other && newBand != lastBand {
          AutoSaveCurrentBandLevels();
          lastBand := newBand;
          LoadTxAttenForBand(newBand);
          LoadTuneAttenForBand(newBand);
          ApplyTxLevel();
        }
      }
    }

    method OnTxLevelStep(delta: int)
      modifies this
      ensures Snapshot() == Adjust(old(Snapshot()), delta) && Refined(Step(delta))
    {
      RefinesIfReady(Snapshot(), Step(delta));
      if tuning {
        tuneLevel := tuneLevel + delta;
      } else {
        txLevel := txLevel + delta;
      }
      ApplyTxLevel();
    }

    /** The Enable/Disable item of the TX level's context menu. */
    method OnToggleTxSave()
      modifies this`txAtten, this`txLoaded
      ensures Snapshot() == Next(old(Snapshot()), SaveTx) && Refined(SaveTx)
    {
      RefinesIfReady(Snapshot(), SaveTx);
      var bandName := Name(FilterFor(reportingFrequency));
      if bandName == "" {
        return;
      }
      if bandName in txAtten {
        txAtten := txAtten - {bandName};
      } else {
        txLoaded := txLevel;
        txAtten := txAtten[bandName := txLevel];
      }
    }

    method OnToggleTuneSave()
      modifies this`tuneAtten, this`tuneLoaded
      ensures Snapshot() == Next(old(Snapshot()), SaveTune) && Refined(SaveTune)
    {
      RefinesIfReady(Snapshot(), SaveTune);
      var bandName := Name(FilterFor(reportingFrequency));
      if bandName == "" {
        return;
      }
      if bandName in tuneAtten {
        tuneAtten := tuneAtten - {bandName};
      } else {
        tuneLoaded := tuneLevel;
        tuneAtten := tuneAtten[bandName := tuneLevel];
      }
    }

    method OnRestoreTx()
      modifies this`txLevel, this`tuneLevel, this`transmitLevel, this`tuneDefault
      ensures Snapshot() == Next(old(Snapshot()), RestoreTx) && Refined(RestoreTx)
    {
      RefinesIfReady(Snapshot(), RestoreTx);
      var bandName := Name(FilterFor(reportingFrequency));
      if bandName == "" || bandName !in txAtten {
        return;
      }
      txLevel := txLoaded;
      ApplyTxLevel();
    }

    method OnRestoreTune()
      modifies this`txLevel, this`tuneLevel, this`transmitLevel, this`tuneDefault
      ensures Snapshot() == Next(old(Snapshot()), RestoreTune) && Refined(RestoreTune)
    {
      RefinesIfReady(Snapshot(), RestoreTune);
      var bandName := Name(FilterFor(reportingFrequency));
      if bandName == "" || bandName !in tuneAtten {
        return;
      }
      tuneLevel := tuneLoaded;
      ApplyTxLevel();
    }

    method OnTogBtnTune()
      modifies this`tuning
      ensures Snapshot() == Next(old(Snapshot()), TuneButton) && Refined(TuneButton)
    {
      RefinesIfReady(Snapshot(), TuneButton);
      tuning := !tuning;
    }
  }

  lemma RefinesIfReady(s: Levels, e: Event)
    ensures Ready(s) && OnBand(e) ==> Ready(Next(s, e)) && Abs(Next(s, e)) == MemoryNext(Abs(s), e)
  {
    if Ready(s) && OnBand(e) { Refines(s, e); }
  }
}
