/** Per-band transmit and tune attenuation (src/ongui.cpp): the live levels are a
    write-back cache in front of two maps keyed by band name and two global defaults.
    Levels are tenths of a dB. */
module BandLevels {

  datatype Band = All | B160 | B80 | B60 | B40 | B30 | B20 | B17 | B15 | B12 | B10 | VhfUhf | Other

  /** bandNameForFilter. */
  function Name(b: Band): string {
    match b
    case B160 => "160m" case B80 => "80m" case B60 => "60m" case B40 => "40m" case B30 => "30m"
    case B20 => "20m" case B17 => "17m" case B15 => "15m" case B12 => "12m" case B10 => "10m"
    case VhfUhf => "vhfuhf"
    case _ => ""
  }

  /** getFilterForFrequency_, from a frequency in Hz. */
  function FilterFor(hz: nat): Band {
    if 1800000 <= hz <= 2000000 then B160
    else if 3500000 <= hz <= 4000000 then B80
    else if 5250000 <= hz <= 5450000 then B60
    else if 7000000 <= hz <= 7300000 then B40
    else if 10100000 <= hz <= 10150000 then B30
    else if 14000000 <= hz <= 14350000 then B20
    else if 18068000 <= hz <= 18168000 then B17
    else if 21000000 <= hz <= 21450000 then B15
    else if 24890000 <= hz <= 24990000 then B12
    else if 28000000 <= hz <= 29700000 then B10
    else if hz >= 50000000 then VhfUhf
    else Other
  }

  /** The frequency box rounds to the nearest 100 Hz. */
  function NearestHundred(hz: nat): nat { (hz / 100 + if hz % 100 >= 50 then 1 else 0) * 100 }

  const MIN := -300
  const MAX := 0

  function Clamp(level: int): int { if level < MIN then MIN else if level > MAX then MAX else level }

  /** One of the two parallel stores: the live level, the per-band map, the global default
      and the restore snapshot. */
  datatype Store = Store(live: int, saved: map<string, int>, fallback: int, loaded: int)

  /** lastBand_, the reporting frequency and the Tune button's value. */
  datatype Levels = Levels(tx: Store, tune: Store, last: Band, hz: nat, tuning: bool)

  // ----- The handlers

  function AutoSave(s: Store, name: string): Store {
    if name in s.saved then s.(saved := s.saved[name := s.live]) else s
  }

  function LoadBand(s: Store, name: string): Store {
    var level := if name in s.saved then s.saved[name] else s.fallback;
    s.(live := level, loaded := level)
  }

  /** applyTxLevel's effect on the store the Tune button selects. */
  function ApplyTo(s: Store, name: string): Store {
    var level := Clamp(s.live);
    s.(live := level, fallback := if name == "" || name !in s.saved then level else s.fallback)
  }

  function Reporting(s: Levels): string { Name(FilterFor(s.hz)) }

  function Apply(s: Levels): Levels {
    if s.tuning then s.(tune := ApplyTo(s.tune, Reporting(s))) else s.(tx := ApplyTo(s.tx, Reporting(s)))
  }

  /** The band part of OnChangeReportFrequency, for a typed frequency. */
  function SetFrequency(s: Levels, typed: nat): Levels {
    var t := s.(hz := NearestHundred(typed));
    var band := FilterFor(t.hz);
    if t.hz > 0 && band != Other && band != t.last then
      var outgoing, name := Name(t.last), Name(band);
      var saved := if outgoing == "" then t else t.(tx := AutoSave(t.tx, outgoing), tune := AutoSave(t.tune, outgoing));
      Apply(saved.(last := band, tx := LoadBand(saved.tx, name), tune := LoadBand(saved.tune, name)))
    else t
  }

  function Adjust(s: Levels, delta: int): Levels {
    Apply(if s.tuning then s.(tune := s.tune.(live := s.tune.live + delta)) else s.(tx := s.tx.(live := s.tx.live
        + delta)))
  }

  function ToggleSave(s: Store, name: string): Store {
    if name == "" then s
    else if name in s.saved then s.(saved := s.saved - {name})
    else s.(saved := s.saved[name := s.live], loaded := s.live)
  }

  /** Restore is offered only on a band with a saved level. */
  predicate CanRestore(s: Store, name: string) { name != "" && name in s.saved }

  function Restore(s: Store): Store { s.(live := s.loaded) }

  datatype Event =
    | Frequency(typed: nat)
    | Step(delta: int)
    | TuneButton
    | SaveTx | SaveTune
    | RestoreTx | RestoreTune

  function Next(s: Levels, e: Event): Levels {
    match e
    case Frequency(typed) => SetFrequency(s, typed)
    case Step(delta) => Adjust(s, delta)
    case TuneButton => s.(tuning := !s.tuning)
    case SaveTx => s.(tx := ToggleSave(s.tx, Reporting(s)))
    case SaveTune => s.(tune := ToggleSave(s.tune, Reporting(s)))
    case RestoreTx => if CanRestore(s.tx, Reporting(s)) then Apply(s.(tx := Restore(s.tx))) else s
    case RestoreTune => if CanRestore(s.tune, Reporting(s)) then Apply(s.(tune := Restore(s.tune))) else s
  }
}
