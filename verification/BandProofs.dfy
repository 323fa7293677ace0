/** The level cache refines a write-through memory: every band with a saved level keeps its
    own value, over every run. */
module BandProofs {
  import opened BandLevels

  lemma NamesDistinct(a: Band, b: Band)
    ensures Name(a) == Name(b) ==> a == b || (Name(a) == "" && a in {All, Other} && b in {All, Other})
    ensures Name(a) == "" <==> a == All || a == Other
  {}

  // ----- The write-through memory

  /** A store in which the current band's saved value is never stale. */
  datatype Shelf = Shelf(live: int, values: map<string, int>, fallback: int, loaded: int)

  datatype Memory = Memory(tx: Shelf, tune: Shelf, current: Band, tuning: bool)

  function Put(h: Shelf, name: string, level: int): Shelf {
    h.(live := level, values := if name in h.values then h.values[name := level] else h.values)
  }

  /** A band without a saved value shares the global default. */
  function Share(h: Shelf, name: string): Shelf {
    if name in h.values then h else h.(fallback := h.live)
  }

  function ShareSelected(m: Memory): Memory {
    if m.tuning then m.(tune := Share(m.tune, Name(m.current))) else m.(tx := Share(m.tx, Name(m.current)))
  }

  /** Entering a band reads its value and writes nothing. */
  function Enter(h: Shelf, name: string): Shelf {
    var level := if name in h.values then h.values[name] else h.fallback;
    h.(live := level, loaded := level)
  }

  function Toggled(h: Shelf, name: string): Shelf {
    if name in h.values then h.(values := h.values - {name})
    else h.(values := h.values[name := h.live], loaded := h.live)
  }

  function MemoryNext(m: Memory, e: Event): Memory {
    var name := Name(m.current);
    match e
    case Frequency(typed) =>
      var band := FilterFor(NearestHundred(typed));
      if band == m.current then m
      else m.(current := band, tx := Enter(m.tx, Name(band)), tune := Enter(m.tune, Name(band)))
    case Step(delta) =>
      ShareSelected(if m.tuning then m.(tune := Put(m.tune, name, Clamp(m.tune.live + delta)))
                    else m.(tx := Put(m.tx, name, Clamp(m.tx.live + delta))))
    case TuneButton => m.(tuning := !m.tuning)
    case SaveTx => m.(tx := Toggled(m.tx, name))
    case SaveTune => m.(tune := Toggled(m.tune, name))
    case RestoreTx => if name in m.tx.values then ShareSelected(m.(tx := Put(m.tx, name, m.tx.loaded))) else m
    case RestoreTune => if name in m.tune.values then ShareSelected(m.(tune := Put(m.tune, name, m.tune.loaded))) else m
  }

  // ----- Refinement

  predicate InRange(s: Store) {
    && MIN <= s.live <= MAX && MIN <= s.fallback <= MAX && MIN <= s.loaded <= MAX
    && forall n :: n in s.saved ==> MIN <= s.saved[n] <= MAX
  }

  /** The reporting frequency is in the band the levels were loaded for, and every level
      is a legal attenuation. */
  predicate Ready(s: Levels)
    ensures Ready(s) ==> s.last != All
  {
    FilterFor(s.hz) == s.last && s.last != Other && InRange(s.tx) && InRange(s.tune)
  }

  function View(s: Store, name: string): Shelf {
    Shelf(s.live, if name in s.saved then s.saved[name := s.live] else s.saved, s.fallback, s.loaded)
  }

  function Abs(s: Levels): Memory {
    Memory(View(s.tx, Name(s.last)), View(s.tune, Name(s.last)), s.last, s.tuning)
  }

  /** No excursion to a frequency outside the amateur bands. */
  predicate OnBand(e: Event) { e.Frequency? ==> FilterFor(NearestHundred(e.typed)) != Other }

  lemma EnterRefines(s: Store, was: string, name: string)
    requires InRange(s) && name != was
    ensures var t := LoadBand(AutoSave(s, was), name);
      && InRange(t) && View(t, name) == Enter(View(s, was), name)
      && (ApplyTo(t, name) == t || name == "")
  {}

  lemma FrequencyRefines(s: Levels, typed: nat)
    requires Ready(s) && OnBand(Frequency(typed))
    ensures Ready(SetFrequency(s, typed)) && Abs(SetFrequency(s, typed)) == MemoryNext(Abs(s), Frequency(typed))
  {
    var band := FilterFor(NearestHundred(typed));
    if band != s.last {
      NamesDistinct(band, s.last);
      NamesDistinct(s.last, s.last);
      EnterRefines(s.tx, Name(s.last), Name(band));
      EnterRefines(s.tune, Name(s.last), Name(band));
    }
  }

  lemma ApplyRefines(s: Store, name: string)
    requires InRange(s.(live := Clamp(s.live))) && name != ""
    ensures InRange(ApplyTo(s, name))
    ensures View(ApplyTo(s, name), name) == Share(Put(View(s, name), name, Clamp(s.live)), name)
  {}

  lemma ToggleRefines(s: Store, name: string)
    requires InRange(s) && name != ""
    ensures InRange(ToggleSave(s, name)) && View(ToggleSave(s, name), name) == Toggled(View(s, name), name)
  {}

  lemma AdjustRefines(s: Levels, delta: int)
    requires Ready(s)
    ensures Ready(Adjust(s, delta)) && Abs(Adjust(s, delta)) == MemoryNext(Abs(s), Step(delta))
  {
    NamesDistinct(s.last, s.last);
    if s.tuning { ApplyRefines(s.tune.(live := s.tune.live + delta), Name(s.last)); }
    else { ApplyRefines(s.tx.(live := s.tx.live + delta), Name(s.last)); }
  }

  lemma RestoreRefines(s: Levels, e: Event)
    requires Ready(s) && (e == RestoreTx || e == RestoreTune)
    ensures Ready(Next(s, e)) && Abs(Next(s, e)) == MemoryNext(Abs(s), e)
  {
    NamesDistinct(s.last, s.last);
    if e == RestoreTx { ApplyRefines(if s.tuning then s.tune else Restore(s.tx), Name(s.last)); }
    else { ApplyRefines(if s.tuning then Restore(s.tune) else s.tx, Name(s.last)); }
  }

  /** Every handler does to the cached levels what it does to the write-through memory. */
  lemma Refines(s: Levels, e: Event)
    requires Ready(s) && OnBand(e)
    ensures Ready(Next(s, e)) && Abs(Next(s, e)) == MemoryNext(Abs(s), e)
  {
    NamesDistinct(s.last, s.last);
    match e
    case Frequency(typed) => FrequencyRefines(s, typed);
    case Step(delta) => AdjustRefines(s, delta);
    case TuneButton =>
    case SaveTx => ToggleRefines(s.tx, Name(s.last));
    case SaveTune => ToggleRefines(s.tune, Name(s.last));
    case RestoreTx => RestoreRefines(s, e);
    case RestoreTune => RestoreRefines(s, e);
  }

  /** From program start, the first frequency in a band makes the levels ready, with the
      configured maps as the bands' values. */
  lemma FirstFrequency(s: Levels, typed: nat)
    requires s.last == Other && InRange(s.tx) && InRange(s.tune) && OnBand(Frequency(typed))
    ensures var t := SetFrequency(s, typed);
      Ready(t) && Abs(t).tx.values == s.tx.saved && Abs(t).tune.values == s.tune.saved
  {}

  // ----- What each event may change

  /** The value a band has in a store: the live level on the current band, else the map's. */
  function Value(s: Levels, st: Store, b: Band): int
    requires b == s.last || Name(b) in st.saved
  {
    if b == s.last then st.live else st.saved[Name(b)]
  }

  /** A store keeps what it has saved for band b. */
  predicate Keeps(s: Levels, st: Store, t: Levels, tt: Store, b: Band) {
    && (Name(b) in st.saved <==> Name(b) in tt.saved)
    && (Name(b) in st.saved ==> Value(t, tt, b) == Value(s, st, b))
  }

  /** A band other than the current one keeps its saved value through any event; a
      frequency change keeps every band's value and both defaults. */
  lemma EventIsLocal(s: Levels, e: Event, b: Band)
    requires Ready(s) && OnBand(e) && b != All && b != Other
    ensures var t := Next(s, e);
      && (b != s.last || e.Frequency? ==> Keeps(s, s.tx, t, t.tx, b) && Keeps(s, s.tune, t, t.tune, b))
      && (e.Frequency? ==> t.tx.fallback == s.tx.fallback && t.tune.fallback == s.tune.fallback)
  {
    NamesDistinct(b, s.last);
    if e.Frequency? { FrequencyIsLocal(s, e.typed, b); }
  }

  /** A level step moves only the live level of the store the Tune button selects, within
      the legal range, and only Enable/Disable changes which bands are saved. */
  lemma StepsAndKeys(s: Levels, e: Event)
    requires Ready(s) && OnBand(e)
    ensures var t := Next(s, e);
      && (e.Step? ==>
            if s.tuning then t.tx == s.tx && t.tune.live == Clamp(s.tune.live + e.delta) && t.tune.saved == s.tune.saved
            else t.tune == s.tune && t.tx.live == Clamp(s.tx.live + e.delta) && t.tx.saved == s.tx.saved)
      && (t.tx.saved.Keys != s.tx.saved.Keys ==> e == SaveTx)
      && (t.tune.saved.Keys != s.tune.saved.Keys ==> e == SaveTune)
  {}

  lemma FrequencyIsLocal(s: Levels, typed: nat, b: Band)
    requires Ready(s) && OnBand(Frequency(typed)) && b != All && b != Other
    ensures var t := SetFrequency(s, typed);
      && Keeps(s, s.tx, t, t.tx, b) && Keeps(s, s.tune, t, t.tune, b)
      && t.tx.fallback == s.tx.fallback && t.tune.fallback == s.tune.fallback
      && t.tx.saved.Keys == s.tx.saved.Keys && t.tune.saved.Keys == s.tune.saved.Keys
  {
    var band := FilterFor(NearestHundred(typed));
    NamesDistinct(b, s.last);
    NamesDistinct(b, band);
    NamesDistinct(s.last, band);
    if band != s.last {
      EnterKeepsKeys(s.tx, Name(s.last), Name(band));
      EnterKeepsKeys(s.tune, Name(s.last), Name(band));
    }
  }

  lemma EnterKeepsKeys(s: Store, was: string, name: string)
    ensures LoadBand(AutoSave(s, was), name).saved.Keys == s.saved.Keys
  {}

  // ----- Whole runs

  function Run(s: Levels, es: seq<Event>): Levels
    decreases |es|
  {
    if es == [] then s else Run(Next(s, es[0]), es[1..])
  }

  function MemoryRun(m: Memory, es: seq<Event>): Memory
    decreases |es|
  {
    if es == [] then m else MemoryRun(MemoryNext(m, es[0]), es[1..])
  }

  /** The cache refines the write-through memory over every run on the bands. */
  lemma {:induction false} RunRefines(s: Levels, es: seq<Event>)
    requires Ready(s) && forall i :: 0 <= i < |es| ==> OnBand(es[i])
    ensures Ready(Run(s, es)) && Abs(Run(s, es)) == MemoryRun(Abs(s), es)
    decreases |es|
  {
    if es != [] {
      Refines(s, es[0]);
      RunRefines(Next(s, es[0]), es[1..]);
    }
  }

  /** No event of the run happens while b is the current band. */
  predicate AwayFrom(s: Levels, es: seq<Event>, b: Band)
    decreases |es|
  {
    es == [] || (s.last != b && OnBand(es[0]) && AwayFrom(Next(s, es[0]), es[1..], b))
  }

  lemma {:induction false} AwayKeepsValue(s: Levels, es: seq<Event>, b: Band)
    requires Ready(s) && AwayFrom(s, es, b) && b != All && b != Other
    ensures var t := Run(s, es);
      Ready(t) && Keeps(s, s.tx, t, t.tx, b) && Keeps(s, s.tune, t, t.tune, b)
    decreases |es|
  {
    if es != [] {
      Refines(s, es[0]);
      EventIsLocal(s, es[0], b);
      AwayKeepsValue(Next(s, es[0]), es[1..], b);
    }
  }

  /** Leaving a band, doing anything on other bands, and coming back restores the level of
      each store in which the band is saved. */
  lemma ReturnRestores(s: Levels, leave: nat, es: seq<Event>, back: nat)
    requires Ready(s)
    requires OnBand(Frequency(leave)) && FilterFor(NearestHundred(leave)) != s.last
    requires AwayFrom(Next(s, Frequency(leave)), es, s.last)
    requires FilterFor(NearestHundred(back)) == s.last
    ensures var t := Next(Run(Next(s, Frequency(leave)), es), Frequency(back));
      && t.last == s.last
      && (Name(s.last) in s.tx.saved ==> t.tx.live == s.tx.live)
      && (Name(s.last) in s.tune.saved ==> t.tune.live == s.tune.live)
  {
    var b := s.last;
    var away := Next(s, Frequency(leave));
    NamesDistinct(b, Other);
    EventIsLocal(s, Frequency(leave), b);
    Refines(s, Frequency(leave));
    AwayKeepsValue(away, es, b);
    var u := Run(away, es);
    EventIsLocal(u, Frequency(back), b);
    Refines(u, Frequency(back));
  }

  // ----- Where the cache falls short

  /** A frequency outside the amateur bands, or any other event. */
  predicate OffBand(e: Event) { e.Frequency? ==> FilterFor(NearestHundred(e.typed)) == Other }

  predicate AllOffBand(es: seq<Event>) { forall i :: 0 <= i < |es| ==> OffBand(es[i]) }

  /** Where the level steps of a run take a level: those made while the Tune button selects
      its store, each clamped. */
  function Drift(level: int, es: seq<Event>, selected: bool): int
    decreases |es|
  {
    if es == [] then level
    else if es[0] == TuneButton then Drift(level, es[1..], !selected)
    else if es[0].Step? && selected then Drift(Clamp(level + es[0].delta), es[1..], selected)
    else Drift(level, es[1..], selected)
  }

  /** Whether a run steps the level at all. */
  predicate Steps(es: seq<Event>, selected: bool)
    decreases |es|
  {
    es != [] && ((es[0].Step? && selected) || Steps(es[1..], if es[0] == TuneButton then !selected else selected))
  }

  lemma {:induction false} NoDrift(level: int, es: seq<Event>, selected: bool)
    requires !Steps(es, selected)
    ensures Drift(level, es, selected) == level
    decreases |es|
  {
    if es != [] { NoDrift(level, es[1..], if es[0] == TuneButton then !selected else selected); }
  }

  /** The last band is unchanged, nothing is saved, and levels stay legal. */
  predicate Outside(s: Levels, t: Levels) {
    && FilterFor(t.hz) == Other && t.last == s.last && InRange(t.tx) && InRange(t.tune)
    && t.tx.saved == s.tx.saved && t.tune.saved == s.tune.saved
  }

  lemma OffBandEvent(s: Levels, e: Event)
    requires Outside(s, s) && OffBand(e)
    ensures var t := Next(s, e);
      && Outside(s, t) && t.tuning == (if e == TuneButton then !s.tuning else s.tuning)
      && t.tx.live == (if e.Step? && !s.tuning then Clamp(s.tx.live + e.delta) else s.tx.live)
      && t.tune.live == (if e.Step? && s.tuning then Clamp(s.tune.live + e.delta) else s.tune.live)
      && t.tx.fallback == (if e.Step? && !s.tuning then t.tx.live else s.tx.fallback)
      && t.tune.fallback == (if e.Step? && s.tuning then t.tune.live else s.tune.fallback)
  {}

  /** Each store's live level is where its steps take it, and its default follows. */
  predicate Drifts(s: Store, t: Store, es: seq<Event>, selected: bool) {
    t.live == Drift(s.live, es, selected) && t.fallback == if Steps(es, selected) then t.live else s.fallback
  }

  /** Any run outside the bands: nothing is saved, each live level is where its steps take
      it, and a level stepped there is also the new default. */
  lemma {:induction false} OffBandRun(s: Levels, es: seq<Event>)
    requires Outside(s, s) && AllOffBand(es)
    ensures var t := Run(s, es);
      Outside(s, t) && Drifts(s.tx, t.tx, es, !s.tuning) && Drifts(s.tune, t.tune, es, s.tuning)
    decreases |es|
  {
    if es != [] {
      OffBandEvent(s, es[0]);
      assert forall i :: 0 <= i < |es[1..]| ==> es[1..][i] == es[i + 1];
      var t := Next(s, es[0]);
      OffBandRun(t, es[1..]);
      if !Steps(es[1..], !t.tuning) { NoDrift(t.tx.live, es[1..], !t.tuning); }
      if !Steps(es[1..], t.tuning) { NoDrift(t.tune.live, es[1..], t.tuning); }
    }
  }

  /** The excursion: out of the bands, any events there, and back on some band. */
  function Excursion(s: Levels, out: nat, es: seq<Event>, back: nat): Levels {
    Next(Run(Next(s, Frequency(out)), es), Frequency(back))
  }

  /** Where an excursion leaves a store: a saved band other than the one left keeps its
      value, and the band left has the drifted one. */
  predicate Drifted(s: Levels, st: Store, t: Levels, tt: Store, level: int, fallback: int) {
    && tt.saved.Keys == st.saved.Keys && tt.fallback == fallback
    && (forall b :: b != s.last && b != All && b != Other ==> Keeps(s, st, t, tt, b))
    && (Name(s.last) in st.saved ==>
          Value(t, tt, s.last) == level && (Value(t, tt, s.last) == Value(s, st, s.last) <==> level == st.live))
  }

  predicate DriftedBy(s: Levels, st: Store, t: Levels, tt: Store, es: seq<Event>, selected: bool) {
    var level := Drift(st.live, es, selected);
    Drifted(s, st, t, tt, level, if Steps(es, selected) then level else st.fallback)
  }

  /** Outside the bands the last band's levels stay live and its saved levels are not
      protected. After any run there and a return to any band, each store has for the band
      left the level the steps of the run took it to, so that its saved value survives if
      and only if they took it nowhere; every other band keeps its value, and a level stepped
      outside is the new default. */
  lemma ExcursionLeaksLevel(s: Levels, out: nat, es: seq<Event>, back: nat)
    requires Ready(s) && FilterFor(NearestHundred(out)) == Other && AllOffBand(es)
    requires FilterFor(NearestHundred(back)) != Other
    ensures var t := Excursion(s, out, es, back);
      && Ready(t) && t.last == FilterFor(NearestHundred(back))
      && DriftedBy(s, s.tx, t, t.tx, es, !s.tuning) && DriftedBy(s, s.tune, t, t.tune, es, s.tuning)
  {
    var s1 := Next(s, Frequency(out));
    var u := Run(s1, es);
    OffBandRun(s1, es);
    ReturnDrifts(s, u, back);
  }

  /** Coming back saves the live levels for the band left, whichever band is entered. */
  lemma ReturnDrifts(s: Levels, u: Levels, back: nat)
    requires Ready(s) && Outside(s, u) && FilterFor(NearestHundred(back)) != Other
    ensures var t := Next(u, Frequency(back));
      && Ready(t) && t.last == FilterFor(NearestHundred(back))
      && Drifted(s, s.tx, t, t.tx, u.tx.live, u.tx.fallback) && Drifted(s, s.tune, t, t.tune, u.tune.live,
          u.tune.fallback)
  {
    var on := u.(hz := NearestHundred(back));
    var band := FilterFor(on.hz);
    NamesDistinct(band, s.last);
    NamesDistinct(s.last, s.last);
    forall b | b != s.last && b != All && b != Other
      ensures var t := Next(u, Frequency(back)); Keeps(s, s.tx, t, t.tx, b) && Keeps(s, s.tune, t, t.tune, b)
    {
      NamesDistinct(b, s.last);
      NamesDistinct(b, band);
    }
    if band != s.last {
      EnterRefines(u.tx, Name(s.last), Name(band));
      EnterRefines(u.tune, Name(s.last), Name(band));
      EnterKeepsKeys(u.tx, Name(s.last), Name(band));
      EnterKeepsKeys(u.tune, Name(s.last), Name(band));
    }
  }

  /** Restoring the transmit level leaves the tune store alone unless it is done while
      tuning on a band whose tune level is neither saved nor equal to the default. */
  lemma RestoreTouchesOtherStore(s: Levels)
    requires Ready(s) && Name(s.last) in s.tx.saved
    ensures Next(s, RestoreTx).tune == s.tune
       <==> !s.tuning || Name(s.last) in s.tune.saved || s.tune.live == s.tune.fallback
  {}

  /** And restoring the tune level leaves the transmit store alone unless it is done while
      not tuning on a band whose transmit level is neither saved nor equal to the default. */
  lemma RestoreTuneTouchesOtherStore(s: Levels)
    requires Ready(s) && Name(s.last) in s.tune.saved
    ensures Next(s, RestoreTune).tx == s.tx
       <==> s.tuning || Name(s.last) in s.tx.saved || s.tx.live == s.tx.fallback
  {}

  // ----- The rules in numbers

  /** The frequency typed goes to the nearest multiple of 100 Hz, up when halfway. */
  lemma RoundsToHundred(hz: nat)
    ensures NearestHundred(hz) % 100 == 0 && -50 < NearestHundred(hz) - hz <= 50
  {}

  /** The bands, by their keys. */
  lemma BandEdges(hz: nat)
    ensures var name := Name(FilterFor(hz));
      && (name == "160m" <==> 1800000 <= hz <= 2000000) && (name == "80m" <==> 3500000 <= hz <= 4000000)
      && (name == "60m" <==> 5250000 <= hz <= 5450000) && (name == "40m" <==> 7000000 <= hz <= 7300000)
      && (name == "30m" <==> 10100000 <= hz <= 10150000) && (name == "20m" <==> 14000000 <= hz <= 14350000)
      && (name == "17m" <==> 18068000 <= hz <= 18168000) && (name == "15m" <==> 21000000 <= hz <= 21450000)
      && (name == "12m" <==> 24890000 <= hz <= 24990000) && (name == "10m" <==> 28000000 <= hz <= 29700000)
      && (name == "vhfuhf" <==> hz >= 50000000) && FilterFor(hz) != All
  {}

  /** Levels are kept from -30 dB to 0 dB, in tenths. */
  lemma LevelRange(level: int)
    ensures -300 <= Clamp(level) <= 0 && (-300 <= level <= 0 ==> Clamp(level) == level)
    ensures (level < -300 ==> Clamp(level) == -300) && (level > 0 ==> Clamp(level) == 0)
  {}

  predicate OnlySteps(es: seq<Event>) { forall i :: 0 <= i < |es| ==> es[i].Step? || es[i].TuneButton? }

  lemma {:induction false} StepsKeepRestore(s: Levels, es: seq<Event>)
    requires OnlySteps(es)
    ensures var t := Run(s, es);
      && t.tx.loaded == s.tx.loaded && t.tune.loaded == s.tune.loaded && t.last == s.last && t.hz == s.hz
      && t.tx.saved == s.tx.saved && t.tune.saved == s.tune.saved
    decreases |es|
  {
    if es != [] {
      assert forall i :: 0 <= i < |es[1..]| ==> es[1..][i] == es[i + 1];
      StepsKeepRestore(Next(s, es[0]), es[1..]);
    }
  }

  /** Restore undoes: on a band just entered, whatever level steps are made there, it brings
      back the level the band had on entry, if that is saved and the store is the one the
      Tune button selects. */
  lemma RestoreUndoesSteps(s: Levels, typed: nat, es: seq<Event>)
    requires Ready(s) && OnBand(Frequency(typed)) && FilterFor(NearestHundred(typed)) != s.last && OnlySteps(es)
    ensures var entered := Next(s, Frequency(typed));
      var t, name := Run(entered, es), Name(FilterFor(NearestHundred(typed)));
      && (name in s.tx.saved ==> Next(t, RestoreTx).tx.live == entered.tx.live == s.tx.saved[name])
      && (name in s.tune.saved ==> Next(t, RestoreTune).tune.live == entered.tune.live == s.tune.saved[name])
  {
    StepsKeepRestore(Next(s, Frequency(typed)), es);
    NamesDistinct(FilterFor(NearestHundred(typed)), s.last);
  }

  /** Enable stores the level as it stands and makes it the one Restore brings back, whatever
      steps follow; Disable forgets it. */
  lemma EnableThenRestore(s: Levels, es: seq<Event>)
    requires Ready(s) && OnlySteps(es)
    ensures var name := Name(s.last);
      var tx, tune := Next(s, SaveTx), Next(s, SaveTune);
      && (name in s.tx.saved ==> tx.tx.saved == s.tx.saved - {name} && tx.tune == s.tune)
      && (name !in s.tx.saved ==> tx.tx.saved == s.tx.saved[name := s.tx.live] && tx.tune == s.tune
                                  && Next(Run(tx, es), RestoreTx).tx.live == s.tx.live)
      && (name in s.tune.saved ==> tune.tune.saved == s.tune.saved - {name} && tune.tx == s.tx)
      && (name !in s.tune.saved ==> tune.tune.saved == s.tune.saved[name := s.tune.live] && tune.tx == s.tx
                                    && Next(Run(tune, es), RestoreTune).tune.live == s.tune.live)
  {
    StepsKeepRestore(Next(s, SaveTx), es);
    StepsKeepRestore(Next(s, SaveTune), es);
  }
}
