/** The multi-mode receiver of src/freedv_interface.cpp as values: the state of
    FreeDVInterface that mode selection reads and writes, and one function per operation.
    Floating-point numbers are real numbers here. */
module RxModel {

  datatype Option<+T> = None | Some(value: T)

  const MODE_1600 := 0
  const MODE_700D := 7
  const MODE_700E := 13
  const MODE_RADE := 257

  /** An open codec2 modem: freedv_open hands out a new one each time. */
  datatype Modem = Modem(id: nat, mode: int)

  /** A modem's SNR estimate as modem_stats reports it. */
  datatype Estimate = NotFinite | Finite(db: real)

  /** The fields of FreeDVInterface. text, fifos and reliable hold, for each entry of
      textFnObjs_, errorFifos_ and reliableText_, the modem it was made for. open is the
      set of modems the library has open; nextId the next one it will hand out. */
  datatype Rx = Rx(
    enabled: seq<int>, dv: seq<Modem>,
    snr: seq<real>, squelch: seq<real>, adjust: seq<real>,
    text: seq<Modem>, fifos: seq<Modem>, reliable: seq<Modem>,
    txMode: int, rxMode: int, currentTx: Option<Modem>, currentRx: Option<Modem>,
    squelchOn: bool, synced: bool, rade: bool,
    open: set<Modem>, nextId: nat)

  function MinimumSnr(mode: int): real {
    if mode == MODE_700D then -2.0
    else if mode == MODE_700E then 1.0
    else if mode == MODE_1600 then 4.0
    else 0.0
  }

  // ----- start and stop

  predicate Legacy(mode: int) { mode < MODE_RADE }

  function PushModem(s: Rx, mode: int, reliable: bool): Rx {
    var m := Modem(s.nextId, mode);
    s.(nextId := s.nextId + 1, open := s.open + {m}, dv := s.dv + [m],
       snr := s.snr + [-20.0], adjust := s.adjust + [MinimumSnr(mode)], squelch := s.squelch + [0.0],
       text := s.text + [m], fifos := s.fifos + [m],
       reliable := if reliable then s.reliable + [m] else s.reliable)
  }

  /** One turn of start's loop over the enabled modes. */
  function OpenMode(s: Rx, mode: int, txMode: int, reliable: bool): Rx {
    if !Legacy(mode) then s.(rxMode := mode, txMode := mode, rade := true)
    else
      var m := Modem(s.nextId, mode);
      var t := PushModem(s, mode, reliable);
      if mode == txMode then t.(currentTx := Some(m), currentRx := Some(m), rxMode := mode, txMode := mode) else t
  }

  function OpenModes(s: Rx, n: nat, txMode: int, reliable: bool): Rx
    requires n <= |s.enabled|
  {
    if n == 0 then s else OpenMode(OpenModes(s, n - 1, txMode, reliable), s.enabled[n - 1], txMode, reliable)
  }

  /** start's minimumSnr after the first n enabled modes. */
  function LowestSnr(modes: seq<int>, n: nat): real
    requires n <= |modes|
  {
    if n == 0 then 999.0
    else
      var low := LowestSnr(modes, n - 1);
      if Legacy(modes[n - 1]) && MinimumSnr(modes[n - 1]) < low then MinimumSnr(modes[n - 1]) else low
  }

  function Minus(xs: seq<real>, d: real): (r: seq<real>)
    ensures |r| == |xs| && forall i :: 0 <= i < |r| ==> r[i] == xs[i] - d
  {
    seq(|xs|, i requires 0 <= i < |xs| => xs[i] - d)
  }

  function Start(s: Rx, txMode: int, reliable: bool): Rx {
    var t := OpenModes(s.(synced := false), |s.enabled|, txMode, reliable);
    t.(adjust := Minus(t.adjust, LowestSnr(s.enabled, |s.enabled|)))
  }

  function Close(open: set<Modem>, dv: seq<Modem>): set<Modem> {
    if dv == [] then open else Close(open, dv[..|dv| - 1]) - {dv[|dv| - 1]}
  }

  function Stop(s: Rx): Rx {
    s.(enabled := [], dv := [], snr := [], squelch := [], adjust := [], text := [], fifos := [], reliable := [],
       txMode := 0, rxMode := 0, currentTx := None, currentRx := None, rade := false, open := Close(s.open, s.dv))
  }

  // ----- Changing the transmit mode and the squelch

  /** Position of the first enabled entry equal to the mode; the length when there is none. */
  function ModeIndex(enabled: seq<int>, mode: int): (i: nat)
    ensures i <= |enabled|
    ensures i < |enabled| ==> enabled[i] == mode
    ensures forall j :: 0 <= j < i ==> enabled[j] != mode
  {
    if enabled == [] || enabled[0] == mode then 0 else 1 + ModeIndex(enabled[1..], mode)
  }

  /** None is the failed assertion: a mode nobody listens for. */
  function ChangeTxMode(s: Rx, mode: int): Option<Rx>
    requires Legacy(mode) && mode in s.enabled ==> ModeIndex(s.enabled, mode) < |s.dv|
  {
    if !Legacy(mode) then Some(s.(txMode := mode))
    else if mode !in s.enabled then None
    else Some(s.(currentTx := Some(s.dv[ModeIndex(s.enabled, mode)]), txMode := mode))
  }

  function SetSquelch(s: Rx, enable: bool, level: real): Rx
    requires |s.squelch| == |s.adjust| == |s.dv|
  {
    s.(squelchOn := enable, squelch := seq(|s.dv|, i requires 0 <= i < |s.dv| => level + s.adjust[i]))
  }

  // ----- One received frame

  /** What the demodulators report: a sync flag and an SNR estimate per legacy mode, and
      the RADE receiver's sync flag. */
  datatype Frame = Frame(sync: seq<bool>, est: seq<Estimate>, radeSync: bool)

  predicate Fits(s: Rx, f: Frame) {
    |s.dv| == |s.snr| == |s.squelch| == |f.sync| == |f.est|
  }

  /** Position of the current receive modem when it is in sync; |dv| otherwise. */
  function Sticky(dv: seq<Modem>, current: Option<Modem>, sync: seq<bool>): (k: nat)
    requires |dv| == |sync|
    ensures k <= |dv|
    ensures k < |dv| ==> Some(dv[k]) == current && sync[k]
    ensures forall i :: 0 <= i < k ==> Some(dv[i]) != current || !sync[i]
  {
    if dv == [] || (Some(dv[0]) == current && sync[0]) then 0 else 1 + Sticky(dv[1..], current, sync[1..])
  }

  function Smooth(snr: real, e: Estimate): real {
    match e
    case NotFinite => snr
    case Finite(db) => 0.95 * snr + (1.0 - 0.95) * db
  }

  function SmoothAll(snr: seq<real>, est: seq<Estimate>): (r: seq<real>)
    requires |snr| == |est|
    ensures |r| == |snr| && forall i :: 0 <= i < |r| ==> r[i] == Smooth(snr[i], est[i])
  {
    seq(|snr|, i requires 0 <= i < |snr| => Smooth(snr[i], est[i]))
  }

  /** A C conversion of a floating-point number to int: toward zero. */
  function Truncate(x: real): int {
    if x >= 0.0 then x.Floor else -((-x).Floor)
  }

  function Rounded(snr: real): int { Truncate(snr + 0.5) }

  /** In sync, not squelched, and above the scan's floor of -25. */
  predicate Eligible(s: Rx, sync: seq<bool>, i: nat)
    requires i < |s.snr| == |s.squelch| == |sync|
  {
    sync[i] && Rounded(s.snr[i]) > -25 && (!s.squelchOn || Rounded(s.snr[i]) as real >= s.squelch[i])
  }

  /** The index postProcessRxFn_ settles on, given the smoothed estimates. */
  function BestOf(s: Rx, sync: seq<bool>, k: nat): Option<nat>
    requires k <= |s.snr| == |s.squelch| == |sync|
    ensures BestOf(s, sync, k).Some? ==> BestOf(s, sync, k).value < k
  {
    if k == 0 then None
    else
      var best := BestOf(s, sync, k - 1);
      if Eligible(s, sync, k - 1) && (best.Some? ==> Rounded(s.snr[k - 1]) > Rounded(s.snr[best.value]))
      then Some(k - 1) else best
  }

  /** The fallback: the transmit mode's position, or 0. */
  function TxIndex(s: Rx): nat {
    var i := ModeIndex(s.enabled, s.txMode);
    if i < |s.enabled| then i else 0
  }

  function Commit(s: Rx, k: nat, sync: bool): Rx
    requires k < |s.dv| && k < |s.enabled|
  {
    if sync then s.(rxMode := s.enabled[k], currentRx := Some(s.dv[k]), synced := true) else s.(synced := false)
  }

  predicate OnRade(s: Rx) { s.dv == [] || !Legacy(s.txMode) }

  /** preProcessRxFn_: the modem to decode alone, or -1 for all of them. */
  function PreProcess(s: Rx, sync: seq<bool>): int
    requires |s.dv| == |sync|
  {
    if !Legacy(s.txMode) then 0
    else
      var k := Sticky(s.dv, s.currentRx, sync);
      if k < |s.dv| then k else -1
  }

  /** The chosen index, before the commit. */
  function Choose(s: Rx, f: Frame): (Rx, nat)
    requires Fits(s, f)
  {
    var k := Sticky(s.dv, s.currentRx, f.sync);
    if k < |s.dv| then (s, k)
    else
      var t := s.(snr := SmoothAll(s.snr, f.est));
      var best := BestOf(t, f.sync, |t.snr|);
      (t, if best.Some? then best.value else TxIndex(t))
  }

  /** postProcessRxFn_: the new state and the index whose audio is let out. */
  function PostProcess(s: Rx, f: Frame): (Rx, nat)
    requires Fits(s, f)
    requires !OnRade(s) ==> TxIndex(s) < |s.dv| <= |s.enabled|
  {
    if OnRade(s) then (s.(synced := f.radeSync), 0)
    else
      var (t, k) := Choose(s, f);
      (Commit(t, k, f.sync[k]), k)
  }

  // ----- Runs

  datatype Event = Receive(frame: Frame) | ChangeTx(mode: int) | Squelch(enable: bool, level: real)
}
