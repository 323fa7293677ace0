/** FreeDVInterface's methods as loops over its parallel deques, each proved against the
    value-level operation of RxModel. */
module FreeDVInterface {
  import opened RxModel

  class Interface {
    var enabledModes: seq<int>
    var dvObjects: seq<Modem>
    var snrVals: seq<real>
    var squelchVals: seq<real>
    var snrAdjust: seq<real>
    var textFnObjs: seq<Modem>
    var errorFifos: seq<Modem>
    var reliableText: seq<Modem>
    var txMode: int
    var rxMode: int
    var currentTxMode: Option<Modem>
    var currentRxMode: Option<Modem>
    var squelchEnabled: bool
    var sync: bool
    var rade: bool
    var open: set<Modem>
    var nextId: nat

    function State(): Rx
      reads this
    {
      Rx(enabledModes, dvObjects, snrVals, squelchVals, snrAdjust, textFnObjs, errorFifos, reliableText,
         txMode, rxMode, currentTxMode, currentRxMode, squelchEnabled, sync, rade, open, nextId)
    }

    constructor ()
      ensures State() == Rx([], [], [], [], [], [], [], [], 0, 0, None, None, false, false, false, {}, 0)
    {
      enabledModes, dvObjects, snrVals, squelchVals, snrAdjust := [], [], [], [], [];
      textFnObjs, errorFifos, reliableText := [], [], [];
      txMode, rxMode, currentTxMode, currentRxMode := 0, 0, None, None;
      squelchEnabled, sync, rade := false, false, false;
      open, nextId := {}, 0;
    }

    method AddRxMode(mode: int)
      modifies this
      ensures State() == old(State()).(enabled := old(enabledModes) + [mode])
    {
      enabledModes := enabledModes + [mode];
    }

    /** start's pushes for one legacy mode. */
    method PushMode(dv: Modem, snr: real, usingReliableText: bool)
      modifies this`dvObjects, this`snrVals, this`snrAdjust, this`squelchVals
      modifies this`textFnObjs, this`errorFifos, this`reliableText
      ensures dvObjects == old(dvObjects) + [dv] && snrVals == old(snrVals) + [-20.0]
      ensures snrAdjust == old(snrAdjust) + [snr] && squelchVals == old(squelchVals) + [0.0]
      ensures textFnObjs == old(textFnObjs) + [dv] && errorFifos == old(errorFifos) + [dv]
      ensures reliableText == if usingReliableText then old(reliableText) + [dv] else old(reliableText)
    {
      snrVals := snrVals + [-20.0];
      dvObjects := dvObjects + [dv];
      snrAdjust := snrAdjust + [snr];
      squelchVals := squelchVals + [0.0];
      textFnObjs := textFnObjs + [dv];
      errorFifos := errorFifos + [dv];
      if usingReliableText {
        reliableText := reliableText + [dv];
      }
    }

    method OpenLegacy(mode: int, usingReliableText: bool) returns (dv: Modem)
      requires Legacy(mode)
      modifies this`nextId, this`open
      modifies this`dvObjects, this`snrVals, this`snrAdjust, this`squelchVals
      modifies this`textFnObjs, this`errorFifos, this`reliableText
      ensures dv == Modem(old(nextId), mode) && nextId == old(nextId) + 1 && open == old(open) + {dv}
      ensures dvObjects == old(dvObjects) + [dv] && snrVals == old(snrVals) + [-20.0]
      ensures snrAdjust == old(snrAdjust) + [MinimumSnr(mode)] && squelchVals == old(squelchVals) + [0.0]
      ensures textFnObjs == old(textFnObjs) + [dv] && errorFifos == old(errorFifos) + [dv]
      ensures reliableText == if usingReliableText then old(reliableText) + [dv] else old(reliableText)
    {
      dv := Modem(nextId, mode);
      nextId := nextId + 1;
      open := open + {dv};
      PushMode(dv, MinimumSnr(mode), usingReliableText);
    }

    /** The wanted mode's modem serves both directions. */
    method UseFor(dv: Modem, mode: int)
      modifies this`currentTxMode, this`currentRxMode, this`rxMode, this`txMode
      ensures currentTxMode == currentRxMode == Some(dv) && rxMode == txMode == mode
    {
      currentTxMode := Some(dv);
      currentRxMode := Some(dv);
      rxMode := mode;
      txMode := mode;
    }

    /** start's handling of one enabled mode. */
    method OpenOne(mode: int, wanted: int, usingReliableText: bool)
      modifies this`nextId, this`open
      modifies this`dvObjects, this`snrVals, this`snrAdjust, this`squelchVals
      modifies this`textFnObjs, this`errorFifos, this`reliableText
      modifies this`currentTxMode, this`currentRxMode, this`rxMode, this`txMode, this`rade
      ensures State() == OpenMode(old(State()), mode, wanted, usingReliableText)
    {
      if mode >= MODE_RADE {
        rxMode := mode;
        txMode := mode;
        rade := true;
      } else {
        var dv := OpenLegacy(mode, usingReliableText);
        if mode == wanted {
          UseFor(dv, mode);
        }
      }
    }

    method OpenAll(wanted: int, usingReliableText: bool) returns (minimumSnr: real)
      modifies this
      ensures State() == OpenModes(old(State()), |old(enabledModes)|, wanted, usingReliableText)
      ensures minimumSnr == LowestSnr(old(enabledModes), |old(enabledModes)|)
    {
      ghost var s := State();
      var modes := enabledModes;
      minimumSnr := 999.0;
      var i := 0;
      while i < |modes|
        invariant 0 <= i <= |modes| && modes == s.enabled
        invariant State() == OpenModes(s, i, wanted, usingReliableText)
        invariant minimumSnr == LowestSnr(modes, i)
      {
        OpenOne(modes[i], wanted, usingReliableText);
        if modes[i] < MODE_RADE && MinimumSnr(modes[i]) < minimumSnr {
          minimumSnr := MinimumSnr(modes[i]);
        }
        i := i + 1;
      }
    }

    method Start(wanted: int, usingReliableText: bool)
      modifies this
      ensures State() == RxModel.Start(old(State()), wanted, usingReliableText)
    {
      sync := false;
      var minimumSnr := OpenAll(wanted, usingReliableText);
      SubtractMinimum(minimumSnr);
    }

    method SubtractMinimum(minimumSnr: real)
      modifies this`snrAdjust
      ensures snrAdjust == Minus(old(snrAdjust), minimumSnr)
    {
      var index := 0;
      while index < |snrAdjust|
        invariant 0 <= index <= |snrAdjust| == |old(snrAdjust)|
        invariant forall j :: 0 <= j < index ==> snrAdjust[j] == old(snrAdjust)[j] - minimumSnr
        invariant forall j :: index <= j < |snrAdjust| ==> snrAdjust[j] == old(snrAdjust)[j]
      {
        snrAdjust := snrAdjust[index := snrAdjust[index] - minimumSnr];
        index := index + 1;
      }
    }

    method CloseModems()
      modifies this`open
      ensures open == Close(old(open), dvObjects)
    {
      var i := 0;
      while i < |dvObjects|
        invariant 0 <= i <= |dvObjects|
        invariant open == Close(old(open), dvObjects[..i])
      {
        assert dvObjects[..i + 1][..i] == dvObjects[..i];
        open := open - {dvObjects[i]};
        i := i + 1;
      }
      assert dvObjects[..|dvObjects|] == dvObjects;
    }

    method ClearModes()
      modifies this`enabledModes, this`currentTxMode, this`currentRxMode, this`txMode, this`rxMode, this`rade
      ensures enabledModes == [] && currentTxMode == currentRxMode == None
      ensures txMode == rxMode == 0 && !rade
    {
      enabledModes := [];
      currentTxMode, currentRxMode := None, None;
      txMode, rxMode := 0, 0;
      rade := false;
    }

    method ClearDeques()
      modifies this`dvObjects, this`snrVals, this`snrAdjust, this`squelchVals
      modifies this`textFnObjs, this`errorFifos, this`reliableText
      ensures dvObjects == [] && snrVals == [] && snrAdjust == [] && squelchVals == []
      ensures textFnObjs == [] && errorFifos == [] && reliableText == []
    {
      snrAdjust, squelchVals, snrVals, textFnObjs, reliableText := [], [], [], [], [];
      dvObjects, errorFifos := [], [];
    }

    method Stop()
      modifies this
      ensures State() == RxModel.Stop(old(State()))
    {
      CloseModems();
      ClearDeques();
      ClearModes();
    }

    /** false is the failed assertion: a mode nobody listens for. */
    method ChangeTxMode(mode: int) returns (ok: bool)
      requires Legacy(mode) && mode in enabledModes ==> ModeIndex(enabledModes, mode) < |dvObjects|
      modifies this
      ensures RxModel.ChangeTxMode(old(State()), mode) == if ok then Some(State()) else None
      ensures !ok ==> State() == old(State())
    {
      if mode >= MODE_RADE {
        txMode := mode;
        return true;
      }
      var index := 0;
      while index < |enabledModes|
        invariant 0 <= index <= ModeIndex(enabledModes, mode)
        invariant State() == old(State())
      {
        if enabledModes[index] == mode {
          currentTxMode := Some(dvObjects[index]);
          txMode := mode;
          return true;
        }
        index := index + 1;
      }
      return false;
    }

    method SetSquelch(enable: bool, level: real)
      requires |squelchVals| == |snrAdjust| == |dvObjects|
      modifies this
      ensures State() == RxModel.SetSquelch(old(State()), enable, level)
    {
      squelchEnabled := enable;
      ghost var s := State();
      var index := 0;
      while index < |dvObjects|
        invariant 0 <= index <= |dvObjects| == |squelchVals| == |snrAdjust|
        invariant State() == s.(squelch := squelchVals)
        invariant forall j :: 0 <= j < index ==> squelchVals[j] == level + snrAdjust[j]
      {
        squelchVals := squelchVals[index := level + snrAdjust[index]];
        index := index + 1;
      }
    }

    /** The loop both processing functions run first; |dvObjects| when it finds nothing. */
    method FindSticky(syncs: seq<bool>) returns (rxIndex: nat)
      requires |syncs| == |dvObjects|
      ensures rxIndex == Sticky(dvObjects, currentRxMode, syncs)
    {
      rxIndex := 0;
      while rxIndex < |dvObjects|
        invariant 0 <= rxIndex <= |dvObjects|
        invariant forall i :: 0 <= i < rxIndex ==> Some(dvObjects[i]) != currentRxMode || !syncs[i]
      {
        if Some(dvObjects[rxIndex]) == currentRxMode && syncs[rxIndex] {
          return;
        }
        rxIndex := rxIndex + 1;
      }
    }

    method PreProcessRxFn(syncs: seq<bool>) returns (rxIndex: int)
      requires |syncs| == |dvObjects|
      ensures rxIndex == PreProcess(State(), syncs)
    {
      if txMode >= MODE_RADE {
        return 0;
      }
      rxIndex := FindSticky(syncs);
      if rxIndex == |dvObjects| {
        return -1;
      }
    }

    /** One turn of the scan: smooth the estimate, and decide whether it beats the best so far. */
    method ScanOne(rxIndex: nat, est: Estimate, synced: bool, maxSyncFound: int) returns (snr: int, better: bool)
      requires rxIndex < |snrVals| == |squelchVals|
      modifies this`snrVals
      ensures snrVals == old(snrVals)[rxIndex := Smooth(old(snrVals)[rxIndex], est)]
      ensures snr == Rounded(snrVals[rxIndex])
      ensures better <==>
        snr > maxSyncFound && synced && (!squelchEnabled || snr as real >= squelchVals[rxIndex])
    {
      if est.Finite? {
        snrVals := snrVals[rxIndex := 0.95 * snrVals[rxIndex] + (1.0 - 0.95) * est.db];
      }
      snr := Truncate(snrVals[rxIndex] + 0.5);
      var canUnsquelch := !squelchEnabled || (squelchEnabled && snr as real >= squelchVals[rxIndex]);
      better := snr > maxSyncFound && synced && canUnsquelch;
    }

    /** The scan for the best synced mode; -1 when there is none. */
    method ScanModes(f: Frame) returns (withSync: int)
      requires Fits(State(), f)
      modifies this`snrVals
      ensures snrVals == SmoothAll(old(snrVals), f.est)
      ensures var best := BestOf(State(), f.sync, |dvObjects|);
        if best.Some? then withSync == best.value else withSync == -1
    {
      ghost var goal := State().(snr := SmoothAll(snrVals, f.est));
      withSync := -1;
      var maxSyncFound := -25;
      var rxIndex := 0;
      while rxIndex < |dvObjects|
        invariant 0 <= rxIndex <= |dvObjects| == |snrVals|
        invariant forall j :: 0 <= j < rxIndex ==> snrVals[j] == goal.snr[j]
        invariant forall j :: rxIndex <= j < |snrVals| ==> snrVals[j] == old(snrVals)[j]
        invariant Leading(goal, f.sync, rxIndex, withSync, maxSyncFound)
      {
        var snr, better := ScanOne(rxIndex, f.est[rxIndex], f.sync[rxIndex], maxSyncFound);
        if better {
          maxSyncFound := snr;
          withSync := rxIndex;
        }
        rxIndex := rxIndex + 1;
      }
      assert snrVals == goal.snr;
    }

    method FallBack() returns (index: nat)
      ensures index == TxIndex(State())
    {
      index := 0;
      while index < |enabledModes|
        invariant 0 <= index <= ModeIndex(enabledModes, txMode)
      {
        if enabledModes[index] == txMode {
          return;
        }
        index := index + 1;
      }
      index := 0;
    }

    method CommitMode(index: nat, finalSync: bool)
      requires index < |dvObjects| && index < |enabledModes|
      modifies this`rxMode, this`currentRxMode, this`sync
      ensures State() == Commit(old(State()), index, finalSync)
    {
      if finalSync {
        rxMode := enabledModes[index];
        currentRxMode := Some(dvObjects[index]);
      }
      sync := finalSync;
    }

    method PostProcessRxFn(f: Frame) returns (indexWithSync: nat)
      requires Fits(State(), f)
      requires !OnRade(State()) ==> TxIndex(State()) < |dvObjects| <= |enabledModes|
      modifies this
      ensures (State(), indexWithSync) == PostProcess(old(State()), f)
    {
      if |dvObjects| == 0 || txMode >= MODE_RADE {
        sync := f.radeSync;
        return 0;
      }
      indexWithSync := FindSticky(f.sync);
      if indexWithSync == |dvObjects| {
        var withSync := ScanModes(f);
        if withSync >= 0 {
          indexWithSync := withSync;
        } else {
          indexWithSync := FallBack();
        }
      }
      CommitMode(indexWithSync, f.sync[indexWithSync]);
    }
  }

  /** The scan's running best after k modes. */
  ghost predicate Leading(s: Rx, sync: seq<bool>, k: nat, withSync: int, maxSyncFound: int)
    requires k <= |s.snr| == |s.squelch| == |sync|
  {
    match BestOf(s, sync, k)
    case None => withSync == -1 && maxSyncFound == -25
    case Some(best) => withSync == best && maxSyncFound == Rounded(s.snr[best]) > -25
  }
}
