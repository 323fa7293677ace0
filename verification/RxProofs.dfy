/** What mode selection keeps over every run, and what start and stop guarantee. */
module RxProofs {
  import opened RxModel

  // ----- Opening the modes

  function LegacyModes(modes: seq<int>): (r: seq<int>)
    ensures forall i :: 0 <= i < |r| ==> Legacy(r[i])
  {
    if modes == [] then []
    else if Legacy(modes[0]) then [modes[0]] + LegacyModes(modes[1..])
    else LegacyModes(modes[1..])
  }

  lemma {:induction false} LegacySnoc(modes: seq<int>, mode: int)
    ensures LegacyModes(modes + [mode]) == if Legacy(mode) then LegacyModes(modes) + [mode] else LegacyModes(modes)
  {
    if modes == [] {
      assert (modes + [mode])[1..] == [];
    } else {
      assert (modes + [mode])[1..] == modes[1..] + [mode];
      LegacySnoc(modes[1..], mode);
    }
  }

  lemma LegacyTake(modes: seq<int>, n: nat)
    requires 0 < n <= |modes|
    ensures LegacyModes(modes[..n])
         == if Legacy(modes[n - 1]) then LegacyModes(modes[..n - 1]) + [modes[n - 1]] else LegacyModes(modes[..n - 1])
  {
    assert modes[..n] == modes[..n - 1] + [modes[n - 1]];
    LegacySnoc(modes[..n - 1], modes[n - 1]);
  }

  /** Nothing open and every field as the constructor or a stop leaves it. */
  predicate Idle(s: Rx) {
    && s.enabled == [] && s.dv == [] && s.snr == [] && s.squelch == [] && s.adjust == []
    && s.text == [] && s.fifos == [] && s.reliable == []
    && s.txMode == 0 && s.rxMode == 0 && s.currentTx == None && s.currentRx == None
    && !s.rade && s.open == {}
  }

  /** The per-mode deques are the same length and entry i of each belongs to modem i. */
  predicate Parallel(s: Rx, withText: bool) {
    && |s.dv| == |s.snr| == |s.squelch| == |s.adjust|
    && s.text == s.dv && s.fifos == s.dv && s.reliable == (if withText then s.dv else [])
  }

  /** The modems are distinct and exactly the ones the library has open. */
  ghost predicate Owned(s: Rx) {
    && (forall i, j :: 0 <= i < j < |s.dv| ==> s.dv[i] != s.dv[j])
    && (forall m :: m in s.open <==> m in s.dv)
    && (forall i :: 0 <= i < |s.dv| ==> s.dv[i].id < s.nextId)
  }

  ghost predicate Lockstep(s: Rx, withText: bool) { Parallel(s, withText) && Owned(s) }

  /** Modem i was opened for enabled mode i. */
  predicate Aligned(s: Rx) {
    |s.dv| <= |s.enabled| && forall i :: 0 <= i < |s.dv| ==> s.dv[i].mode == s.enabled[i]
  }

  function Modes(dv: seq<Modem>): (r: seq<int>)
    ensures |r| == |dv| && forall i :: 0 <= i < |r| ==> r[i] == dv[i].mode
  {
    seq(|dv|, i requires 0 <= i < |dv| => dv[i].mode)
  }

  /** Freshly opened: smoothed SNRs at -20 and each modem's own minimum SNR recorded. */
  ghost predicate Opened(s: Rx, withText: bool) {
    && Lockstep(s, withText)
    && (forall i :: 0 <= i < |s.dv| ==> s.adjust[i] == MinimumSnr(s.dv[i].mode))
    && (forall i :: 0 <= i < |s.dv| ==> s.snr[i] == -20.0 && s.squelch[i] == 0.0)
  }

  /** What no event touches. */
  predicate SameModes(s: Rx, t: Rx) {
    && t.enabled == s.enabled && t.dv == s.dv && t.text == s.text && t.fifos == s.fifos
    && t.reliable == s.reliable && t.open == s.open && t.nextId == s.nextId
    && t.adjust == s.adjust && |t.snr| == |s.snr| && |t.squelch| == |s.squelch|
  }

  lemma SameOpened(s: Rx, t: Rx, reliable: bool)
    requires Opened(s, reliable) && SameModes(s, t) && t.snr == s.snr && t.squelch == s.squelch
    ensures Opened(t, reliable)
  {}

  lemma PushKeepsOpened(s: Rx, mode: int, reliable: bool)
    requires Opened(s, reliable)
    ensures Opened(PushModem(s, mode, reliable), reliable)
    ensures Modes(PushModem(s, mode, reliable).dv) == Modes(s.dv) + [mode]
  {}

  lemma OpenKeepsOpened(s: Rx, mode: int, txMode: int, reliable: bool)
    requires Opened(s, reliable)
    ensures var t := OpenMode(s, mode, txMode, reliable);
      Opened(t, reliable) && Modes(t.dv) == if Legacy(mode) then Modes(s.dv) + [mode] else Modes(s.dv)
  {
    if Legacy(mode) {
      PushKeepsOpened(s, mode, reliable);
      SameOpened(PushModem(s, mode, reliable), OpenMode(s, mode, txMode, reliable), reliable);
    } else {
      SameOpened(s, OpenMode(s, mode, txMode, reliable), reliable);
    }
  }

  lemma {:induction false} OpenedModes(s: Rx, n: nat, txMode: int, reliable: bool)
    requires s.dv == [] && Opened(s, reliable) && n <= |s.enabled|
    ensures OpenedFor(OpenModes(s, n, txMode, reliable), s.enabled, n, reliable)
  {
    if n == 0 {
      assert Modes(s.dv) == LegacyModes(s.enabled[..0]);
    } else {
      OpenedModes(s, n - 1, txMode, reliable);
      OpenOneMore(OpenModes(s, n - 1, txMode, reliable), s.enabled, n, txMode, reliable);
    }
  }

  /** The first n of the modes have been opened. */
  ghost predicate OpenedFor(s: Rx, modes: seq<int>, n: nat, reliable: bool)
    requires n <= |modes|
  {
    Opened(s, reliable) && s.enabled == modes && Modes(s.dv) == LegacyModes(modes[..n])
  }

  lemma OpenOneMore(s: Rx, modes: seq<int>, n: nat, txMode: int, reliable: bool)
    requires 0 < n <= |modes| && OpenedFor(s, modes, n - 1, reliable)
    ensures OpenedFor(OpenMode(s, modes[n - 1], txMode, reliable), modes, n, reliable)
  {
    LegacyTake(modes, n);
    OpenKeepsOpened(s, modes[n - 1], txMode, reliable);
  }

  lemma {:induction false} LowestIsMinimum(modes: seq<int>, n: nat)
    requires n <= |modes|
    ensures forall i :: 0 <= i < n && Legacy(modes[i]) ==> LowestSnr(modes, n) <= MinimumSnr(modes[i])
    ensures LowestSnr(modes, n) == 999.0
         || exists m :: m in LegacyModes(modes[..n]) && MinimumSnr(m) == LowestSnr(modes, n)
    ensures LegacyModes(modes[..n]) != [] ==> LowestSnr(modes, n) < 999.0
    ensures forall m :: m in LegacyModes(modes[..n]) ==> LowestSnr(modes, n) <= MinimumSnr(m)
  {
    if n > 0 {
      LowestIsMinimum(modes, n - 1);
      LegacyTake(modes, n);
    }
  }

  predicate NoRadeBeforeLegacy(modes: seq<int>) {
    forall i, j :: 0 <= i < j < |modes| && Legacy(modes[j]) ==> Legacy(modes[i])
  }

  /** The legacy modes keep their positions exactly when no RADE entry precedes one. */
  lemma {:induction false} LegacyIsPrefix(modes: seq<int>)
    ensures NoRadeBeforeLegacy(modes) <==> LegacyModes(modes) <= modes
  {
    if modes != [] {
      var rest := modes[1..];
      LegacyIsPrefix(rest);
      if Legacy(modes[0]) {
        assert LegacyModes(modes)[1..] == LegacyModes(rest);
        assert NoRadeBeforeLegacy(rest) ==> NoRadeBeforeLegacy(modes);
      } else if NoRadeBeforeLegacy(modes) {
        NoneLegacy(rest);
      } else {
        var i, j :| 0 <= i < j < |modes| && Legacy(modes[j]) && !Legacy(modes[i]);
        SomeLegacy(rest, j - 1);
      }
    }
  }

  lemma {:induction false} NoneLegacy(modes: seq<int>)
    requires forall i :: 0 <= i < |modes| ==> !Legacy(modes[i])
    ensures LegacyModes(modes) == []
  {
    if modes != [] { NoneLegacy(modes[1..]); }
  }

  lemma {:induction false} SomeLegacy(modes: seq<int>, j: nat)
    requires j < |modes| && Legacy(modes[j])
    ensures LegacyModes(modes) != []
  {
    if !Legacy(modes[0]) { SomeLegacy(modes[1..], j - 1); }
  }

  /** Each offset is its mode's minimum SNR less the lowest one. */
  lemma Offsets(t: Rx, legacy: seq<int>, low: real)
    requires |t.adjust| == |t.dv| && Modes(t.dv) == legacy
    requires forall i :: 0 <= i < |t.dv| ==> t.adjust[i] == MinimumSnr(t.dv[i].mode) - low
    requires forall m :: m in legacy ==> low <= MinimumSnr(m)
    requires legacy != [] ==> exists m :: m in legacy && MinimumSnr(m) == low
    ensures forall i :: 0 <= i < |t.dv| ==> t.adjust[i] >= 0.0
    ensures t.dv != [] ==> exists i :: 0 <= i < |t.dv| && t.adjust[i] == 0.0
  {
    forall i | 0 <= i < |t.dv| ensures t.adjust[i] >= 0.0 { assert Modes(t.dv)[i] in legacy; }
    if t.dv != [] {
      var m :| m in legacy && MinimumSnr(m) == low;
      var i :| 0 <= i < |t.dv| && Modes(t.dv)[i] == m;
      assert t.adjust[i] == 0.0;
    }
  }

  /** What start leaves: deques in lockstep over the legacy modes in order, squelch offsets
      non-negative with a minimum of zero, and modem i serving enabled mode i exactly when
      no RADE entry precedes a legacy one. */
  lemma Started(s: Rx, txMode: int, reliable: bool)
    requires s.dv == [] && Opened(s, reliable)
    ensures var t := Start(s, txMode, reliable);
      && t.enabled == s.enabled && Lockstep(t, reliable)
      && Modes(t.dv) == LegacyModes(s.enabled)
      && (forall i :: 0 <= i < |t.dv| ==> t.adjust[i] >= 0.0 && t.snr[i] == -20.0 && t.squelch[i] == 0.0)
      && (t.dv != [] ==> exists i :: 0 <= i < |t.dv| && t.adjust[i] == 0.0)
      && (forall i, j :: 0 <= i < |t.dv| && 0 <= j < |t.dv| ==>
            t.adjust[i] - t.adjust[j] == MinimumSnr(t.dv[i].mode) - MinimumSnr(t.dv[j].mode))
      && (Aligned(t) <==> NoRadeBeforeLegacy(s.enabled))
  {
    var n := |s.enabled|;
    var t0 := OpenModes(s.(synced := false), n, txMode, reliable);
    var t := Start(s, txMode, reliable);
    OpenedModes(s.(synced := false), n, txMode, reliable);
    assert s.enabled[..n] == s.enabled;
    var low := LowestSnr(s.enabled, n);
    LowestIsMinimum(s.enabled, n);
    Offsets(t, LegacyModes(s.enabled), low);
    LegacyIsPrefix(s.enabled);
    AlignedPrefix(t);
  }

  lemma AlignedPrefix(s: Rx)
    ensures Aligned(s) <==> Modes(s.dv) <= s.enabled
  {}

  // ----- Sessions end where they began

  lemma {:induction false} ClosedAll(open: set<Modem>, dv: seq<Modem>)
    ensures forall m :: m in Close(open, dv) <==> m in open && m !in dv
  {
    if dv != [] {
      ClosedAll(open, dv[..|dv| - 1]);
      assert dv == dv[..|dv| - 1] + [dv[|dv| - 1]];
    }
  }

  lemma StopIsIdle(s: Rx, withText: bool)
    requires Lockstep(s, withText)
    ensures Idle(Stop(s))
  {
    ClosedAll(s.open, s.dv);
    assert Stop(s).open == {};
  }

  // ----- Selection, over every run

  /** The receive modem is one of the open ones and rxMode_ is the enabled mode it serves;
      likewise for the transmit modem while the transmit mode is a legacy one. */
  ghost predicate Locked(s: Rx) {
    && Paired(s) && (forall i, j :: 0 <= i < j < |s.dv| ==> s.dv[i] != s.dv[j])
    && (exists i :: Serves(s, i, s.currentRx, s.rxMode))
    && (Legacy(s.txMode) ==> exists i :: Serves(s, i, s.currentTx, s.txMode))
  }

  predicate Serves(s: Rx, i: nat, modem: Option<Modem>, mode: int) {
    i < |s.dv| && i < |s.enabled| && modem == Some(s.dv[i]) && mode == s.enabled[i]
  }

  /** An event the program's callers produce: one flag and estimate per modem, and a legacy
      transmit mode only from the enabled ones. */
  predicate Allowed(s: Rx, e: Event) {
    match e
    case Receive(f) => |f.sync| == |f.est| == |s.dv|
    case ChangeTx(mode) => !Legacy(mode) || mode in s.enabled
    case Squelch(_, _) => true
  }

  /** The event's handler stays within its deques. */
  predicate Defined(s: Rx, e: Event) {
    && |s.dv| == |s.snr| == |s.squelch| == |s.adjust| && Allowed(s, e)
    && match e
       case Receive(_) => OnRade(s) || TxIndex(s) < |s.dv| <= |s.enabled|
       case ChangeTx(mode) => !Legacy(mode) || ModeIndex(s.enabled, mode) < |s.dv|
       case Squelch(_, _) => true
  }

  /** The modems serve the first enabled modes, which are all the legacy ones. */
  predicate Paired(s: Rx) {
    && |s.dv| == |s.snr| == |s.squelch| == |s.adjust|
    && Aligned(s) && (forall i :: |s.dv| <= i < |s.enabled| ==> !Legacy(s.enabled[i]))
  }

  lemma PairedDefined(s: Rx, e: Event)
    requires Paired(s) && Allowed(s, e)
    ensures Defined(s, e)
  {}

  lemma TxInRange(s: Rx)
    requires Locked(s)
    ensures Legacy(s.txMode) ==> TxIndex(s) < |s.dv| <= |s.enabled| && s.enabled[TxIndex(s)] == s.txMode
  {}

  function Step(s: Rx, e: Event): Rx
    requires Defined(s, e)
  {
    match e
    case Receive(f) => PostProcess(s, f).0
    case ChangeTx(mode) => ChangeTxMode(s, mode).value
    case Squelch(enable, level) => SetSquelch(s, enable, level)
  }

  /** No event opens, closes or reorders anything. */
  lemma StepSameModes(s: Rx, e: Event)
    requires Defined(s, e)
    ensures SameModes(s, Step(s, e))
  {
    if e.Receive? { ReceiveSameModes(s, e.frame); }
  }

  lemma LockedAgain(s: Rx, t: Rx)
    requires Locked(s) && SameModes(s, t)
    requires (t.currentRx == s.currentRx && t.rxMode == s.rxMode) || exists i :: Serves(t, i, t.currentRx, t.rxMode)
    requires (t.currentTx == s.currentTx && t.txMode == s.txMode) || !Legacy(t.txMode)
          || exists i :: Serves(t, i, t.currentTx, t.txMode)
    ensures Locked(t)
  {
    var r :| Serves(s, r, s.currentRx, s.rxMode);
    assert t.currentRx == s.currentRx && t.rxMode == s.rxMode ==> Serves(t, r, t.currentRx, t.rxMode);
    if Legacy(s.txMode) {
      var i :| Serves(s, i, s.currentTx, s.txMode);
      assert t.currentTx == s.currentTx && t.txMode == s.txMode ==> Serves(t, i, t.currentTx, t.txMode);
    }
  }

  lemma ReceiveSameModes(s: Rx, f: Frame)
    requires Fits(s, f) && (!OnRade(s) ==> TxIndex(s) < |s.dv| <= |s.enabled|)
    ensures var t := PostProcess(s, f).0;
      SameModes(s, t) && t.txMode == s.txMode && t.currentTx == s.currentTx
  {}

  lemma ReceiveKeepsLocked(s: Rx, f: Frame)
    requires Locked(s) && Allowed(s, Receive(f))
    ensures Locked(Step(s, Receive(f))) && SameModes(s, Step(s, Receive(f)))
  {
    TxInRange(s);
    ReceiveSameModes(s, f);
    var (t, k) := PostProcess(s, f);
    if !OnRade(s) && f.sync[k] { assert Serves(t, k, t.currentRx, t.rxMode); }
    LockedAgain(s, t);
  }

  lemma ChangeTxKeepsLocked(s: Rx, mode: int)
    requires Locked(s) && Allowed(s, ChangeTx(mode))
    ensures Locked(Step(s, ChangeTx(mode))) && SameModes(s, Step(s, ChangeTx(mode)))
  {
    var t := ChangeTxMode(s, mode).value;
    assert !Legacy(mode) || Serves(t, ModeIndex(s.enabled, mode), t.currentTx, t.txMode);
    LockedAgain(s, t);
  }

  lemma StepKeepsLocked(s: Rx, e: Event)
    requires Locked(s) && Allowed(s, e)
    ensures Locked(Step(s, e)) && SameModes(s, Step(s, e))
  {
    match e
    case Receive(f) => ReceiveKeepsLocked(s, f);
    case ChangeTx(mode) => ChangeTxKeepsLocked(s, mode);
    case Squelch(enable, level) => LockedAgain(s, SetSquelch(s, enable, level));
  }

  /** A receive mode is left only for another that is in sync, on a frame where it is not. */
  lemma SwitchNeedsSync(s: Rx, f: Frame, a: nat)
    requires Locked(s) && Allowed(s, Receive(f)) && Serves(s, a, s.currentRx, s.rxMode)
    ensures var t := Step(s, Receive(f));
      t.currentRx != s.currentRx ==>
        !f.sync[a] && exists b: nat :: b != a && Serves(t, b, t.currentRx, t.rxMode) && f.sync[b]
  {}

  /** The modem decoded alone is the one let out, if it is still in sync after decoding. */
  lemma StickyHolds(s: Rx, before: seq<bool>, f: Frame)
    requires Locked(s) && Allowed(s, Receive(f)) && |before| == |s.dv|
    requires PreProcess(s, before) >= 0
    requires Legacy(s.txMode) ==> f.sync[PreProcess(s, before)]
    ensures TxIndex(s) < |s.dv| || !Legacy(s.txMode)
    ensures PostProcess(s, f).1 == PreProcess(s, before)
  {}

  /** The index decoded alone is where the current receive modem stands, when it was in sync;
      when it was not, all modems are decoded; with RADE there is one only. */
  lemma DecodedAlone(s: Rx, sync: seq<bool>, i: nat)
    requires |s.dv| == |sync| && i < |s.dv| && forall j :: 0 <= j < i ==> s.dv[j] != s.dv[i]
    ensures !Legacy(s.txMode) ==> PreProcess(s, sync) == 0
    ensures Legacy(s.txMode) && s.currentRx == Some(s.dv[i]) && sync[i] ==> PreProcess(s, sync) == i
    ensures Legacy(s.txMode) && (forall j :: 0 <= j < |s.dv| && Some(s.dv[j]) == s.currentRx ==> !sync[j]) ==>
      PreProcess(s, sync) == -1
  {}

  /** A change of the transmit mode: any RADE mode is taken, a legacy one with its first open
      modem, and nothing else changes; a legacy mode nobody listens for fails. */
  lemma TxModeChanges(s: Rx, mode: int)
    requires Legacy(mode) && mode in s.enabled ==> ModeIndex(s.enabled, mode) < |s.dv|
    ensures ChangeTxMode(s, mode) == None <==> Legacy(mode) && mode !in s.enabled
    ensures ChangeTxMode(s, mode).Some? ==>
      var t := ChangeTxMode(s, mode).value;
      && t.txMode == mode && t.(txMode := s.txMode, currentTx := s.currentTx) == s
      && (!Legacy(mode) ==> t.currentTx == s.currentTx)
      && (Legacy(mode) ==> exists i: nat :: IsFirst(s.enabled, mode, i) && i < |s.dv| && t.currentTx == Some(s.dv[i]))
  {
    var i := ModeIndex(s.enabled, mode);
    if Legacy(mode) && mode in s.enabled { assert IsFirst(s.enabled, mode, i); }
  }

  predicate IsFirst(modes: seq<int>, mode: int, i: nat) {
    i < |modes| && modes[i] == mode && mode !in modes[..i]
  }

  // ----- The scan is an argmax

  /** The first of the eligible modes with the highest rounded SNR. */
  ghost predicate IsFirstBest(s: Rx, sync: seq<bool>, k: nat, n: nat)
    requires n <= |s.snr| == |s.squelch| == |sync|
  {
    && k < n && Eligible(s, sync, k)
    && (forall i :: 0 <= i < n && Eligible(s, sync, i) ==> Rounded(s.snr[i]) <= Rounded(s.snr[k]))
    && (forall i :: 0 <= i < k && Eligible(s, sync, i) ==> Rounded(s.snr[i]) < Rounded(s.snr[k]))
  }

  lemma {:induction false} BestIsFirstBest(s: Rx, sync: seq<bool>, n: nat)
    requires n <= |s.snr| == |s.squelch| == |sync|
    ensures match BestOf(s, sync, n)
      case Some(k) => IsFirstBest(s, sync, k, n)
      case None => forall i :: 0 <= i < n ==> !Eligible(s, sync, i)
  {
    if n > 0 { BestIsFirstBest(s, sync, n - 1); }
  }

  /** With the current mode out of sync, the frame settles on the first best eligible mode
      by the freshly smoothed estimates, or on the transmit mode when none is eligible. */
  lemma SelectionIsArgmax(s: Rx, f: Frame)
    requires Locked(s) && Allowed(s, Receive(f)) && Legacy(s.txMode)
    requires forall i :: 0 <= i < |s.dv| && Some(s.dv[i]) == s.currentRx ==> !f.sync[i]
    ensures TxIndex(s) < |s.dv|
    ensures var t := s.(snr := SmoothAll(s.snr, f.est));
      var k := PostProcess(s, f).1;
      if exists i :: 0 <= i < |s.dv| && Eligible(t, f.sync, i)
      then IsFirstBest(t, f.sync, k, |s.dv|)
      else s.enabled[k] == s.txMode
  {
    TxInRange(s);
    var t := s.(snr := SmoothAll(s.snr, f.est));
    BestIsFirstBest(t, f.sync, |t.snr|);
  }

  /** A frame reports sync exactly when the mode it lets out is in sync. */
  lemma SyncReported(s: Rx, f: Frame)
    requires Locked(s) && Allowed(s, Receive(f)) && Legacy(s.txMode)
    ensures TxIndex(s) < |s.dv|
    ensures var (t, k) := PostProcess(s, f);
      t.synced == f.sync[k] && (t.synced ==> Serves(t, k, t.currentRx, t.rxMode))
  {}

  // ----- Whole runs

  predicate Runs(s: Rx, es: seq<Event>)
    decreases |es|
  {
    es == [] || (Defined(s, es[0]) && Runs(Step(s, es[0]), es[1..]))
  }

  function Run(s: Rx, es: seq<Event>): Rx
    requires Runs(s, es)
    decreases |es|
  {
    if es == [] then s else Run(Step(s, es[0]), es[1..])
  }

  predicate AllAllowed(s: Rx, es: seq<Event>) { forall i :: 0 <= i < |es| ==> Allowed(s, es[i]) }

  lemma SameAllowed(s: Rx, t: Rx, es: seq<Event>)
    requires SameModes(s, t) && es != [] && AllAllowed(s, es)
    ensures AllAllowed(t, es[1..])
  {
    assert forall i :: 0 <= i < |es[1..]| ==> es[1..][i] == es[i + 1];
  }

  lemma {:induction false} RunSameModes(s: Rx, es: seq<Event>)
    requires Runs(s, es)
    ensures SameModes(s, Run(s, es))
    decreases |es|
  {
    if es != [] {
      StepSameModes(s, es[0]);
      RunSameModes(Step(s, es[0]), es[1..]);
    }
  }

  /** There is a modem at the first position of every enabled legacy mode. */
  predicate Covered(s: Rx) {
    && |s.dv| == |s.snr| == |s.squelch| == |s.adjust| && |s.dv| <= |s.enabled|
    && forall i :: 0 <= i < |s.enabled| && Legacy(s.enabled[i]) ==> ModeIndex(s.enabled, s.enabled[i]) < |s.dv|
  }

  lemma CoveredDefined(s: Rx, e: Event)
    requires Covered(s) && Allowed(s, e)
    ensures Defined(s, e)
  {}

  /** While every enabled legacy mode has a modem at its first position, no sequence of
      allowed events ever leaves a handler's range. */
  lemma {:induction false} AllowedRuns(s: Rx, es: seq<Event>)
    requires Covered(s) && AllAllowed(s, es)
    ensures Runs(s, es)
    decreases |es|
  {
    if es != [] {
      CoveredDefined(s, es[0]);
      StepSameModes(s, es[0]);
      SameAllowed(s, Step(s, es[0]), es);
      AllowedRuns(Step(s, es[0]), es[1..]);
    }
  }

  /** Every finite estimate of the run lies in [lo, hi]. */
  ghost predicate Within(es: seq<Event>, lo: real, hi: real) {
    forall i, j :: 0 <= i < |es| && es[i].Receive? && 0 <= j < |es[i].frame.est| && es[i].frame.est[j].Finite?
      ==> lo <= es[i].frame.est[j].db <= hi
  }

  predicate Bounded(snr: seq<real>, lo: real, hi: real) {
    forall i :: 0 <= i < |snr| ==> lo <= snr[i] <= hi
  }

  lemma SmoothBounded(snr: real, e: Estimate, lo: real, hi: real)
    requires lo <= snr <= hi && (e.Finite? ==> lo <= e.db <= hi)
    ensures lo <= Smooth(snr, e) <= hi
  {}

  /** Over any run, whatever the enabled list: every smoothed SNR is within the hull of its
      start value and the estimates seen. */
  lemma {:induction false} RunBounded(s: Rx, es: seq<Event>, lo: real, hi: real)
    requires Runs(s, es) && Within(es, lo, hi) && Bounded(s.snr, lo, hi)
    ensures Bounded(Run(s, es).snr, lo, hi)
    decreases |es|
  {
    if es != [] {
      var e := es[0];
      var t := Step(s, e);
      StepSameModes(s, e);
      forall i | 0 <= i < |t.snr| ensures lo <= t.snr[i] <= hi {
        if e.Receive? { SmoothBounded(s.snr[i], e.frame.est[i], lo, hi); }
      }
      assert forall i :: 0 <= i < |es[1..]| ==> es[1..][i] == es[i + 1];
      RunBounded(t, es[1..], lo, hi);
    }
  }

  /** After any run from a locked state the receive modem is open and matches rxMode_, and
      likewise the transmit modem. */
  lemma {:induction false} RunKeepsLocked(s: Rx, es: seq<Event>)
    requires Locked(s) && AllAllowed(s, es)
    ensures Runs(s, es) && Locked(Run(s, es)) && SameModes(s, Run(s, es))
    decreases |es|
  {
    if es != [] {
      PairedDefined(s, es[0]);
      StepKeepsLocked(s, es[0]);
      SameAllowed(s, Step(s, es[0]), es);
      RunKeepsLocked(Step(s, es[0]), es[1..]);
    }
  }

  predicate AllLegacy(modes: seq<int>) {
    forall i :: 0 <= i < |modes| ==> Legacy(modes[i])
  }

  lemma {:induction false} AllLegacyModes(modes: seq<int>)
    requires AllLegacy(modes)
    ensures LegacyModes(modes) == modes
  {
    if modes != [] { AllLegacyModes(modes[1..]); }
  }

  /** While only legacy modes are opened, the transmit and receive modem are the last one
      opened for the wanted mode. */
  lemma {:induction false} WantedSelected(s: Rx, n: nat, txMode: int, reliable: bool, w: nat) returns (i: nat)
    requires s.dv == [] && AllLegacy(s.enabled) && w < n <= |s.enabled| && s.enabled[w] == txMode
    ensures var t := OpenModes(s, n, txMode, reliable);
      && i < |t.dv| <= n && s.enabled[i] == txMode
      && t.currentTx == t.currentRx == Some(t.dv[i]) && t.txMode == t.rxMode == txMode
  {
    OpenedCount(s, n - 1, txMode, reliable);
    if s.enabled[n - 1] == txMode {
      i := n - 1;
    } else {
      i := WantedSelected(s, n - 1, txMode, reliable, w);
    }
  }

  lemma {:induction false} OpenedCount(s: Rx, n: nat, txMode: int, reliable: bool)
    requires s.dv == [] && n <= |s.enabled| && AllLegacy(s.enabled)
    ensures |OpenModes(s, n, txMode, reliable).dv| == n
  {
    if n > 0 { OpenedCount(s, n - 1, txMode, reliable); }
  }

  /** What start leaves when it cannot lock: no receive modem without the wanted mode, and a
      RADE receive mode after a RADE entry with no legacy one behind it. */
  lemma {:induction false} NotSelected(s: Rx, n: nat, txMode: int, reliable: bool)
    requires n <= |s.enabled|
    ensures var t := OpenModes(s, n, txMode, reliable);
      && (s.currentRx == None && txMode !in s.enabled[..n] ==> t.currentRx == None)
      && (n > 0 && !Legacy(s.enabled[n - 1]) ==> !Legacy(t.rxMode))
  {
    if n > 0 { NotSelected(s, n - 1, txMode, reliable); }
  }

  lemma StartLocks(s: Rx, txMode: int, reliable: bool)
    requires s.dv == [] && Opened(s, reliable) && AllLegacy(s.enabled) && txMode in s.enabled
    ensures Locked(Start(s, txMode, reliable))
    ensures Start(s, txMode, reliable).txMode == Start(s, txMode, reliable).rxMode == txMode
  {
    var t := Start(s, txMode, reliable);
    Started(s, txMode, reliable);
    AllLegacyModes(s.enabled);
    AlignedPrefix(t);
    var w :| 0 <= w < |s.enabled| && s.enabled[w] == txMode;
    var i := WantedSelected(s.(synced := false), |s.enabled|, txMode, reliable, w);
    assert Serves(t, i, t.currentRx, t.rxMode) && Serves(t, i, t.currentTx, t.txMode);
  }

  /** Start locks the receiver, to the wanted mode, exactly when the enabled modes are all
      legacy ones and include it. */
  lemma StartIsLocked(s: Rx, txMode: int, reliable: bool)
    requires s.dv == [] && Opened(s, reliable) && s.currentRx == None
    ensures Locked(Start(s, txMode, reliable)) <==> AllLegacy(s.enabled) && txMode in s.enabled
    ensures Locked(Start(s, txMode, reliable)) ==>
      Start(s, txMode, reliable).txMode == Start(s, txMode, reliable).rxMode == txMode
  {
    if AllLegacy(s.enabled) && txMode in s.enabled {
      StartLocks(s, txMode, reliable);
    } else if Locked(Start(s, txMode, reliable)) {
      var t := Start(s, txMode, reliable);
      Started(s, txMode, reliable);
      assert s.enabled[..|s.enabled|] == s.enabled;
      NotSelected(s.(synced := false), |s.enabled|, txMode, reliable);
      LastIsLegacy(t);
    }
  }

  /** A locked state whose last enabled mode is a legacy one has no RADE entry. */
  lemma LastIsLegacy(t: Rx)
    requires Paired(t) && (t.enabled != [] ==> Legacy(t.enabled[|t.enabled| - 1]))
    requires forall i :: 0 <= i < |t.dv| ==> Legacy(t.dv[i].mode)
    ensures AllLegacy(t.enabled)
  {}

  // ----- Sessions

  /** One use of the interface: the modes added, start, what happens, stop. */
  datatype Session = Session(modes: seq<int>, txMode: int, reliable: bool, events: seq<Event>)

  function Begin(s: Rx, w: Session): Rx { Start(s.(enabled := w.modes), w.txMode, w.reliable) }

  function Finish(s: Rx, w: Session): Rx
    requires Runs(Begin(s, w), w.events)
  {
    Stop(Run(Begin(s, w), w.events))
  }

  /** Whatever modes are enabled, and whatever is received, retuned or squelched between
      start and stop, stop leaves the idle state with every modem closed, and smoothed SNRs
      stay in the hull of -20 and the estimates. */
  lemma SessionReturnsToIdle(s: Rx, w: Session, lo: real, hi: real)
    requires Idle(s) && Runs(Begin(s, w), w.events)
    ensures Idle(Finish(s, w))
    ensures lo <= -20.0 <= hi && Within(w.events, lo, hi) ==> Bounded(Run(Begin(s, w), w.events).snr, lo, hi)
  {
    var t := Begin(s, w);
    Started(s.(enabled := w.modes), w.txMode, w.reliable);
    RunSameModes(t, w.events);
    StopIsIdle(Run(t, w.events), w.reliable);
    if lo <= -20.0 <= hi && Within(w.events, lo, hi) { RunBounded(t, w.events, lo, hi); }
  }

  predicate AllRun(s: Rx, ws: seq<Session>)
    decreases |ws|
  {
    ws == [] || (Runs(Begin(s, ws[0]), ws[0].events) && AllRun(Finish(s, ws[0]), ws[1..]))
  }

  function Rounds(s: Rx, ws: seq<Session>): Rx
    requires AllRun(s, ws)
    decreases |ws|
  {
    if ws == [] then s else Rounds(Finish(s, ws[0]), ws[1..])
  }

  /** Any number of sessions, each with its own list, returns to the idle state. */
  lemma {:induction false} RoundsReturnToIdle(s: Rx, ws: seq<Session>)
    requires Idle(s) && AllRun(s, ws)
    ensures Idle(Rounds(s, ws))
    decreases |ws|
  {
    if ws != [] {
      SessionReturnsToIdle(s, ws[0], 0.0, 0.0);
      RoundsReturnToIdle(Finish(s, ws[0]), ws[1..]);
    }
  }

  /** Each legacy mode of the list first stands before as many entries as are legacy. */
  predicate FirstsServed(modes: seq<int>) {
    forall i :: 0 <= i < |modes| && Legacy(modes[i]) ==> ModeIndex(modes, modes[i]) < |LegacyModes(modes)|
  }

  ghost predicate AlwaysRuns(t: Rx) { forall es: seq<Event> :: AllAllowed(t, es) ==> Runs(t, es) }

  /** Which lists every session of allowed events runs on: those where each legacy mode's
      first entry comes before as many as are legacy. So do the lists without a RADE entry
      ahead of a legacy one, such as RADE alone, and no other list of distinct modes. */
  lemma SessionRuns(s: Rx, modes: seq<int>, txMode: int, reliable: bool)
    requires Idle(s)
    ensures FirstsServed(modes) <==> AlwaysRuns(Start(s.(enabled := modes), txMode, reliable))
    ensures NoRadeBeforeLegacy(modes) ==> FirstsServed(modes)
    ensures (forall i, j :: 0 <= i < j < |modes| ==> modes[i] != modes[j]) ==>
        (NoRadeBeforeLegacy(modes) <==> FirstsServed(modes))
  {
    StartRuns(s, modes, txMode, reliable);
    if NoRadeBeforeLegacy(modes) {
      PrefixServed(modes);
    } else if forall i, j :: 0 <= i < j < |modes| ==> modes[i] != modes[j] {
      var j := LastLegacy(modes);
      assert ModeIndex(modes, modes[j]) == j;
    }
  }

  lemma StartRuns(s: Rx, modes: seq<int>, txMode: int, reliable: bool)
    requires Idle(s)
    ensures FirstsServed(modes) <==> AlwaysRuns(Start(s.(enabled := modes), txMode, reliable))
  {
    var t := Start(s.(enabled := modes), txMode, reliable);
    Started(s.(enabled := modes), txMode, reliable);
    AtMostLegacy(modes, |modes|);
    if FirstsServed(modes) {
      forall es | AllAllowed(t, es) ensures Runs(t, es) { AllowedRuns(t, es); }
    } else {
      var i :| 0 <= i < |modes| && Legacy(modes[i]) && ModeIndex(modes, modes[i]) >= |LegacyModes(modes)|;
      NotDefined(t, modes[i]);
    }
  }

  /** Changing to an enabled legacy mode without a modem at its position leaves the deques. */
  lemma NotDefined(t: Rx, mode: int)
    requires Legacy(mode) && mode in t.enabled && ModeIndex(t.enabled, mode) >= |t.dv|
    ensures !AlwaysRuns(t)
  {
    var es := [ChangeTx(mode)];
    assert AllAllowed(t, es) && !Defined(t, es[0]);
    assert !Runs(t, es);
  }

  lemma PrefixServed(modes: seq<int>)
    requires NoRadeBeforeLegacy(modes)
    ensures FirstsServed(modes)
  {
    forall i | 0 <= i < |modes| && Legacy(modes[i]) ensures ModeIndex(modes, modes[i]) < |LegacyModes(modes)| {
      FirstBefore(modes, i);
      LegacyCount(modes, i);
    }
  }

  lemma FirstBefore(modes: seq<int>, i: nat)
    requires i < |modes|
    ensures ModeIndex(modes, modes[i]) <= i
  {}

  /** The last legacy mode of a list in which RADE precedes a legacy mode: its modem's index
      is below its own. */
  lemma LastLegacy(modes: seq<int>) returns (j: nat)
    requires !NoRadeBeforeLegacy(modes)
    ensures j < |modes| && Legacy(modes[j]) && |LegacyModes(modes)| <= j
  {
    var i: nat, k: nat :| i < k < |modes| && Legacy(modes[k]) && !Legacy(modes[i]);
    j := LastFrom(modes, k);
    FewLegacy(modes, i, j);
  }

  lemma LastFrom(modes: seq<int>, k: nat) returns (j: nat)
    requires k < |modes| && Legacy(modes[k])
    ensures k <= j < |modes| && Legacy(modes[j]) && forall n :: j < n < |modes| ==> !Legacy(modes[n])
    decreases |modes| - k
  {
    if n :| k < n < |modes| && Legacy(modes[n]) { j := LastFrom(modes, n); } else { j := k; }
  }

  lemma {:induction false} AtMostLegacy(modes: seq<int>, j: nat)
    requires forall n :: j <= n < |modes| ==> !Legacy(modes[n])
    ensures |LegacyModes(modes)| <= j
  {
    if j == 0 { NoneLegacy(modes); } else if modes != [] { AtMostLegacy(modes[1..], j - 1); }
  }

  lemma {:induction false} FewLegacy(modes: seq<int>, i: nat, j: nat)
    requires i < j < |modes| && !Legacy(modes[i]) && forall n :: j < n < |modes| ==> !Legacy(modes[n])
    ensures |LegacyModes(modes)| <= j
  {
    if i == 0 { AtMostLegacy(modes[1..], j); } else { FewLegacy(modes[1..], i - 1, j - 1); }
  }

  lemma {:induction false} LegacyCount(modes: seq<int>, i: nat)
    requires i < |modes| && forall j :: 0 <= j <= i ==> Legacy(modes[j])
    ensures |LegacyModes(modes)| > i
  {
    if i > 0 { LegacyCount(modes[1..], i - 1); }
  }

  // ----- What start makes of the modes

  /** The entries of the list that start makes the current mode: RADE, and the wanted one. */
  predicate Taken(mode: int, txMode: int) { mode >= 257 || mode == txMode }

  /** Entry i is the last of those among the first n. */
  predicate LastTaken(modes: seq<int>, n: nat, txMode: int, i: int) {
    0 <= i < n <= |modes| && Taken(modes[i], txMode) && forall j :: i < j < n ==> !Taken(modes[j], txMode)
  }

  predicate NoneTaken(modes: seq<int>, n: nat, txMode: int) {
    n <= |modes| && forall i :: 0 <= i < n ==> !Taken(modes[i], txMode)
  }

  predicate HasRade(modes: seq<int>, n: nat) { n <= |modes| && exists i :: 0 <= i < n && modes[i] >= 257 }

  lemma {:induction false} OpenedModesOf(s: Rx, n: nat, txMode: int, reliable: bool, i: int)
    requires n <= |s.enabled|
    ensures var t := OpenModes(s, n, txMode, reliable);
      && (LastTaken(s.enabled, n, txMode, i) ==> t.txMode == t.rxMode == s.enabled[i])
      && (NoneTaken(s.enabled, n, txMode) ==> t.txMode == s.txMode && t.rxMode == s.rxMode)
  {
    if n > 0 { OpenedModesOf(s, n - 1, txMode, reliable, i); }
  }

  lemma {:induction false} OpenedRade(s: Rx, n: nat, txMode: int, reliable: bool)
    requires n <= |s.enabled|
    ensures OpenModes(s, n, txMode, reliable).rade <==> s.rade || HasRade(s.enabled, n)
  {
    if n > 0 { OpenedRade(s, n - 1, txMode, reliable); }
  }

  /** After start from the idle state, for every list: both modes are the last entry that is
      a RADE mode or the wanted one, or 0 when there is none, and the RADE flag says whether
      the list has a RADE entry. */
  lemma StartedModes(s: Rx, modes: seq<int>, txMode: int, reliable: bool)
    requires Idle(s)
    ensures var t := Start(s.(enabled := modes), txMode, reliable);
      && (t.rade <==> HasRade(modes, |modes|))
      && (forall i :: LastTaken(modes, |modes|, txMode, i) ==> t.txMode == t.rxMode == modes[i])
      && (NoneTaken(modes, |modes|, txMode) ==> t.txMode == t.rxMode == 0)
  {
    var t := Start(s.(enabled := modes), txMode, reliable);
    var s1 := s.(enabled := modes, synced := false);
    OpenedRade(s1, |modes|, txMode, reliable);
    OpenedModesOf(s1, |modes|, txMode, reliable, 0);
    forall i | LastTaken(modes, |modes|, txMode, i) ensures t.txMode == t.rxMode == modes[i] {
      OpenedModesOf(s1, |modes|, txMode, reliable, i);
    }
  }

  // ----- Sessions on RADE alone

  /** RADE is being received and no legacy modem is open. */
  predicate OnRadeAlone(s: Rx) {
    s.dv == [] && s.snr == s.squelch == s.adjust == [] && s.enabled == [257] && s.txMode >= 257
  }

  lemma {:induction false} RadeStays(s: Rx, es: seq<Event>)
    requires OnRadeAlone(s) && AllAllowed(s, es)
    ensures Runs(s, es) && OnRadeAlone(Run(s, es))
    decreases |es|
  {
    if es != [] {
      SameAllowed(s, Step(s, es[0]), es);
      RadeStays(Step(s, es[0]), es[1..]);
    }
  }

  /** The program's default session, whatever mode is wanted and whatever happens in it:
      preProcess answers 0, and every frame lets index 0 out and reports RADE's own sync. */
  lemma RadeSession(s: Rx, txMode: int, reliable: bool, es: seq<Event>, f: Frame)
    requires Idle(s) && AllAllowed(Start(s.(enabled := [257]), txMode, reliable), es) && f.sync == [] && f.est == []
    ensures var t := Start(s.(enabled := [257]), txMode, reliable);
      Runs(t, es) && OnRadeAlone(Run(t, es)) && PreProcess(Run(t, es), []) == 0
    ensures var u := Run(Start(s.(enabled := [257]), txMode, reliable), es);
      PostProcess(u, f).1 == 0 && PostProcess(u, f).0 == u.(synced := f.radeSync)
  {
    var t := Start(s.(enabled := [257]), txMode, reliable);
    StartedModes(s, [257], txMode, reliable);
    Started(s.(enabled := [257]), txMode, reliable);
    assert LegacyModes([257]) == [];
    assert LastTaken([257], 1, txMode, 0);
    RadeStays(t, es);
  }

  // ----- The smoothing, in numbers

  /** A frame on which no modem is let out before the scan: the current one is out of sync. */
  predicate Scans(s: Rx, f: Frame) {
    && Fits(s, f) && s.dv != [] && s.txMode < 257 && TxIndex(s) < |s.dv| <= |s.enabled|
    && forall i :: 0 <= i < |s.dv| && Some(s.dv[i]) == s.currentRx ==> !f.sync[i]
  }

  /** Such a frame moves every smoothed SNR a twentieth of the way to a finite estimate and
      leaves it at any other; a frame on which the current modem is in sync moves none. */
  lemma FrameSmooths(s: Rx, f: Frame, i: nat)
    requires Fits(s, f) && (!OnRade(s) ==> TxIndex(s) < |s.dv| <= |s.enabled|) && i < |s.dv|
    ensures var t := PostProcess(s, f).0;
      && |t.snr| == |s.snr| && (!Scans(s, f) ==> t.snr[i] == s.snr[i])
      && (Scans(s, f) && f.est[i].Finite? ==> 20.0 * (t.snr[i] - s.snr[i]) == f.est[i].db - s.snr[i])
      && (Scans(s, f) && f.est[i].NotFinite? ==> t.snr[i] == s.snr[i])
  {
    var k := Sticky(s.dv, s.currentRx, f.sync);
  }

  /** A frame that scans and gives modem i the estimate. */
  predicate Steady(s: Rx, f: Frame, t: Rx, i: nat, db: real) {
    Scans(s, f) && i < |s.dv| && f.est[i] == Finite(db) && t == PostProcess(s, f).0
  }

  /** The states before and after frames that all scan and give modem i the same estimate. */
  predicate SteadyRun(ss: seq<Rx>, fs: seq<Frame>, i: nat, db: real) {
    |ss| == |fs| + 1 && forall k :: 0 <= k < |fs| ==> Steady(ss[k], fs[k], ss[k + 1], i, db)
  }

  /** 0.95 to the power n, times x. */
  function Decayed(n: nat, x: real): real { if n == 0 then x else 0.95 * Decayed(n - 1, x) }

  lemma FrameMoves(s: Rx, f: Frame, t: Rx, i: nat, db: real)
    requires Steady(s, f, t, i, db)
    ensures |t.snr| == |s.snr| == |s.dv| && i < |s.snr| && t.snr[i] - db == 0.95 * (s.snr[i] - db)
  {
    FrameSmooths(s, f, i);
  }

  /** A constant estimate is approached geometrically: after n frames what is left of the
      distance is 0.95 to the power n. */
  lemma {:induction false} SmoothsGeometrically(ss: seq<Rx>, fs: seq<Frame>, i: nat, db: real, n: nat)
    requires SteadyRun(ss, fs, i, db) && i < |ss[0].snr| && n <= |fs|
    ensures i < |ss[n].snr| && ss[n].snr[i] - db == Decayed(n, ss[0].snr[i] - db)
  {
    if n > 0 {
      SmoothsGeometrically(ss, fs, i, db, n - 1);
      FrameMoves(ss[n - 1], fs[n - 1], ss[n], i, db);
    }
  }

  // ----- Thresholds, in numbers

  /** The SNR in dB a mode is taken to need. */
  function Needed(mode: int): real {
    if mode == 7 then -2.0 else if mode == 13 then 1.0 else if mode == 0 then 4.0 else 0.0
  }

  /** Setting the squelch after start gives the most robust open mode the level itself, and
      every other one as much more as it needs. */
  lemma SquelchLevels(s: Rx, txMode: int, reliable: bool, enable: bool, level: real)
    requires s.dv == [] && Opened(s, reliable)
    ensures var t := Start(s, txMode, reliable);
      && |t.squelch| == |t.adjust| == |t.dv| && SquelchesAt(SetSquelch(t, enable, level), level)
      && SetSquelch(t, enable, level).squelchOn == enable
      && SetSquelch(t, enable, level).(squelch := t.squelch, squelchOn := t.squelchOn) == t
  {
    Started(s, txMode, reliable);
    var t := Start(s, txMode, reliable);
    SquelchesFrom(t, SetSquelch(t, enable, level), level);
  }

  ghost predicate SquelchesAt(u: Rx, level: real) {
    && |u.squelch| == |u.dv| && (forall i :: 0 <= i < |u.dv| ==> u.squelch[i] >= level)
    && (u.dv != [] ==> exists i :: 0 <= i < |u.dv| && u.squelch[i] == level)
    && (forall i, j :: 0 <= i < |u.dv| && 0 <= j < |u.dv| ==>
          u.squelch[i] - u.squelch[j] == Needed(u.dv[i].mode) - Needed(u.dv[j].mode))
  }

  lemma SquelchesFrom(t: Rx, u: Rx, level: real)
    requires |u.squelch| == |t.adjust| == |t.dv| && u.dv == t.dv
    requires forall i :: 0 <= i < |t.dv| ==> u.squelch[i] == level + t.adjust[i] && t.adjust[i] >= 0.0
    requires t.dv != [] ==> exists i :: 0 <= i < |t.dv| && t.adjust[i] == 0.0
    requires forall i, j :: 0 <= i < |t.dv| && 0 <= j < |t.dv| ==>
      t.adjust[i] - t.adjust[j] == MinimumSnr(t.dv[i].mode) - MinimumSnr(t.dv[j].mode)
    ensures SquelchesAt(u, level)
  {
    if t.dv != [] {
      var i :| 0 <= i < |t.dv| && t.adjust[i] == 0.0;
      assert u.squelch[i] == level;
    }
  }

  lemma FloorAtLeast(y: real, n: int)
    ensures y.Floor >= n <==> y >= n as real
  {
    var f := y.Floor;
    assert f as real <= y < f as real + 1.0;
    if f < n { assert f as real + 1.0 <= n as real; }
  }

  lemma TruncateAtLeast(y: real, n: int)
    ensures Truncate(y) >= n <==> if n > 0 then y >= n as real else y > n as real - 1.0
  {
    FloorAtLeast(y, n);
    FloorAtLeast(-y, 1 - n);
    if y < 0.0 && n > 0 { FloorAtLeast(-y, 0); }
    if y >= 0.0 && n <= 0 { FloorAtLeast(y, 0); }
  }

  /** Rounding goes to the nearest whole number above zero and one short of it below. */
  lemma RoundedAtLeast(snr: real, n: int)
    ensures Rounded(snr) >= n <==> if n > 0 then snr >= n as real - 0.5 else snr > n as real - 1.5
  {
    TruncateAtLeast(snr + 0.5, n);
  }

  /** The scan takes a mode in sync whose estimate is above -25.5 dB and, with the squelch on
      at a whole number of dB, at most half a dB below it; at zero and below, the rounding
      toward zero lets almost a dB more through. */
  lemma EligibleExactly(s: Rx, sync: seq<bool>, i: nat, level: int)
    requires i < |s.snr| == |s.squelch| == |sync| && s.squelch[i] == level as real
    ensures Eligible(s, sync, i) <==>
      && sync[i] && s.snr[i] > -25.5
      && (!s.squelchOn || if level > 0 then s.snr[i] >= level as real - 0.5 else s.snr[i] > level as real - 1.5)
  {
    RoundedAtLeast(s.snr[i], -24);
    RoundedAtLeast(s.snr[i], level);
    RealAtLeast(Rounded(s.snr[i]), level);
  }

  lemma RealAtLeast(a: int, b: int)
    ensures a >= b <==> a as real >= b as real
  {}
}
