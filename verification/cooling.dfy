/** The cooling collector: system cooling status and per-fan speeds. Only the
    maximum-speed vector is registered; the other five are written but never
    exposed. */
module Cooling {
  import opened Metrics
  import GoStrings
  import Opts

  /** One fan in the reply to `show environment cooling`. */
  datatype FanStatus = FanStatus(
    status: string,
    uptime: real,
    maxSpeed: int,
    configuredSpeed: int,
    actualSpeed: int,
    speedStable: bool,
    lastSpeedStableChangeTime: real,
    fanLabel: string)

  /** A power-supply slot or a fan-tray slot and its fans. */
  datatype FanSlot = FanSlot(status: string, speed: int, slotLabel: string, fans: seq<FanStatus>)

  /** The decoded reply. */
  datatype Snapshot = Snapshot(
    overrideFanSpeed: int,
    coolingMode: string,
    shutdownOnInsufficientFans: bool,
    ambientTemperature: real,
    systemStatus: string,
    airflowDirection: string,
    powerSupplySlots: seq<FanSlot>,
    fanTraySlots: seq<FanSlot>)

  const Command: string := "show environment cooling"

  const Subsystem: string := "cooling"

  /** The six gauges `Register` creates. */
  datatype Gauge =
    | Meta | AmbientTemperature | OverrideFanSpeed
    | FanMaxSpeed | FanConfiguredSpeed | FanActualSpeed

  /** The three gauges set once per fan. */
  predicate IsFanGauge(g: Gauge) {
    g == FanMaxSpeed || g == FanConfiguredSpeed || g == FanActualSpeed
  }

  const AllGauges: seq<Gauge> :=
    [Meta, AmbientTemperature, OverrideFanSpeed, FanMaxSpeed, FanConfiguredSpeed, FanActualSpeed]

  /** The gauges set once per fan, in the order the loop sets them. */
  const FanGauges: seq<Gauge> := [FanMaxSpeed, FanConfiguredSpeed, FanActualSpeed]

  lemma {:induction false} FanGaugeList()
    ensures forall g :: g in FanGauges <==> IsFanGauge(g)
  {
    forall g: Gauge | IsFanGauge(g) ensures g in FanGauges {
      if g == FanMaxSpeed { assert FanGauges[0] == g; }
      else if g == FanConfiguredSpeed { assert FanGauges[1] == g; }
      else { assert FanGauges[2] == g; }
    }
  }

  function Name(g: Gauge): string {
    match g
    case Meta => "meta"
    case AmbientTemperature => "ambient_temperature"
    case OverrideFanSpeed => "override_fan_speed"
    case FanMaxSpeed => "fan_max_speed"
    case FanConfiguredSpeed => "fan_configured_speed"
    case FanActualSpeed => "fan_actual_speed"
  }

  function Help(g: Gauge): string {
    match g
    case Meta => "Metric containing meta information about the device's cooling system/config"
    case AmbientTemperature => "Ambient Temperature in Celsius"
    case OverrideFanSpeed => "Fan speed override. If 0, the fan speed is not currently overridden"
    case FanMaxSpeed => "Maximum capable fan speed"
    case FanConfiguredSpeed => "Configured speed"
    case FanActualSpeed => "Actual speed"
  }

  /** The label schema of each gauge. */
  function Labels(g: Gauge): seq<string> {
    match g
    case Meta => ["coolingMode", "shutdownOnInsufficientFans", "systemStatus"]
    case AmbientTemperature => []
    case OverrideFanSpeed => []
    case FanMaxSpeed => ["tray", "fanName"]
    case FanConfiguredSpeed => ["tray", "fanName"]
    case FanActualSpeed => ["tray", "fanName"]
  }

  /** The options each gauge is created with. */
  function OptsOf(g: Gauge): (o: GaugeOpts)
    ensures o.namespace == Opts.Namespace && o.subsystem == Subsystem && o.name == Name(g)
  {
    Opts.MakeSubsystemOptsFactory(Subsystem)(Name(g), Help(g))
  }

  /** The gauge a metric name belongs to, if any. */
  function Named(name: string): Option<Gauge> {
    if name == "meta" then Some(Meta)
    else if name == "ambient_temperature" then Some(AmbientTemperature)
    else if name == "override_fan_speed" then Some(OverrideFanSpeed)
    else if name == "fan_max_speed" then Some(FanMaxSpeed)
    else if name == "fan_configured_speed" then Some(FanConfiguredSpeed)
    else if name == "fan_actual_speed" then Some(FanActualSpeed)
    else None
  }

  /** Each gauge's name leads back to it. */
  lemma {:induction false} NameRoundTrip(g: Gauge)
    ensures Named(Name(g)) == Some(g)
  {
    match g
    case Meta =>
    case AmbientTemperature =>
    case OverrideFanSpeed =>
    case FanMaxSpeed =>
    case FanConfiguredSpeed =>
    case FanActualSpeed =>
  }

  /** Distinct gauges are distinct descriptors, so a gauge stands for its options. */
  lemma {:induction false} OptsInjective(a: Gauge, b: Gauge)
    requires OptsOf(a) == OptsOf(b)
    ensures a == b
  {
    NameRoundTrip(a);
    NameRoundTrip(b);
  }

  lemma {:induction false} GaugeLists()
    ensures forall g :: g in AllGauges
  {
    forall g ensures g in AllGauges {
      match g
      case Meta => assert AllGauges[0] == g;
      case AmbientTemperature => assert AllGauges[1] == g;
      case OverrideFanSpeed => assert AllGauges[2] == g;
      case FanMaxSpeed => assert AllGauges[3] == g;
      case FanConfiguredSpeed => assert AllGauges[4] == g;
      case FanActualSpeed => assert AllGauges[5] == g;
    }
  }

  /** The vectors `Register` creates: all six, with the schemas of `Labels`. */
  function Created(): (g: Gauges<Gauge>)
    ensures Fresh(g)
    ensures forall c :: c in g
    ensures forall c :: c in g ==> g[c].labelNames == Labels(c)
  {
    GaugeLists();
    map c | c in AllGauges :: NewGaugeVec(Labels(c))
  }

  /** `Register`: only the maximum-speed vector reaches the registry. */
  function Register(r: Registry<Gauge>): (r': Registry<Gauge>)
    requires FanMaxSpeed !in r.registered
    ensures forall c :: c in r'.registered <==> c in r.registered || c == FanMaxSpeed
  {
    MustRegister(r, [FanMaxSpeed])
  }

  /** The meta labels; the shutdown flag reads back from its label. */
  function MetaTuple(s: Snapshot): (t: Tuple)
    ensures |t| == |Labels(Meta)| && t[0] == s.coolingMode && t[2] == s.systemStatus
    ensures t[1] == "true" <==> s.shutdownOnInsufficientFans
    ensures t[1] == "false" <==> !s.shutdownOnInsufficientFans
  {
    [s.coolingMode, GoStrings.FormatBool(s.shutdownOnInsufficientFans), s.systemStatus]
  }

  /** The fans of `slots`, slot by slot, in the order the nested loop visits them. */
  function SlotFans(slots: seq<FanSlot>): (fans: seq<FanStatus>)
    decreases |slots|
  {
    if slots == [] then [] else SlotFans(slots[..|slots| - 1]) + slots[|slots| - 1].fans
  }

  /** The value each per-fan gauge takes. */
  function FanValue(f: FanStatus, g: Gauge): real
    requires IsFanGauge(g)
  {
    match g
    case FanMaxSpeed => f.maxSpeed as real
    case FanConfiguredSpeed => f.configuredSpeed as real
    case FanActualSpeed => f.actualSpeed as real
  }

  /** The three speeds of one fan, by gauge. */
  function FanValues(f: FanStatus): (values: map<Gauge, real>)
    ensures forall c :: c in values <==> IsFanGauge(c)
    ensures forall c :: c in values ==> values[c] == FanValue(f, c)
  {
    map[FanMaxSpeed := f.maxSpeed as real,
        FanConfiguredSpeed := f.configuredSpeed as real,
        FanActualSpeed := f.actualSpeed as real]
  }

  /** The three speeds of one fan at the tuple (tray, fan label). */
  function FanWrite(tray: string, f: FanStatus): (w: Write<Gauge>)
    ensures Fits(Created(), w)
    ensures w.labels == [tray, f.fanLabel]
    ensures forall c :: c in w.values <==> IsFanGauge(c)
    ensures forall c :: c in w.values ==> w.values[c] == FanValue(f, c)
  {
    Write([tray, f.fanLabel], FanValues(f))
  }

  /** The inner loop over `fans`, every series tagged with `tray`. */
  function FanWrites(tray: string, fans: seq<FanStatus>): (ws: seq<Write<Gauge>>)
    ensures AllFit(Created(), ws)
    ensures forall i :: 0 <= i < |ws| ==> |ws[i].labels| == 2 && ws[i].labels[0] == tray
    ensures forall i, c :: 0 <= i < |ws| && c in ws[i].values ==> IsFanGauge(c)
    decreases |fans|
  {
    if fans == [] then []
    else FanWrites(tray, fans[..|fans| - 1]) + [FanWrite(tray, fans[|fans| - 1])]
  }

  /** `UpdateMetrics`: meta, the two unlabeled gauges, then every
      power-supply fan as "psu" and every fan-tray fan as "fanslot". */
  function Updates(s: Snapshot): (ws: seq<Write<Gauge>>)
    ensures AllFit(Created(), ws)
  {
    Header(s) + FanWrites("psu", SlotFans(s.powerSupplySlots)) + FanWrites("fanslot", SlotFans(s.fanTraySlots))
  }

  /** The three writes before the fan loops. */
  function Header(s: Snapshot): (ws: seq<Write<Gauge>>)
    ensures AllFit(Created(), ws)
    ensures forall i :: 0 <= i < |ws| ==> |ws[i].labels| != 2
  {
    var w0, w1, w2 := MetaWrite(s), UnlabeledWrite(AmbientTemperature, s.ambientTemperature),
      UnlabeledWrite(OverrideFanSpeed, s.overrideFanSpeed as real);
    AllFitThree(Created(), w0, w1, w2);
    [w0, w1, w2]
  }

  /** The meta series set to 1. */
  function MetaWrite(s: Snapshot): (w: Write<Gauge>)
    ensures Fits(Created(), w) && |w.labels| == 3
  {
    Write(MetaTuple(s), map[Meta := 1.0])
  }

  /** One of the two unlabeled gauges set to `x`. */
  function UnlabeledWrite(g: Gauge, x: real): (w: Write<Gauge>)
    requires g == AmbientTemperature || g == OverrideFanSpeed
    ensures Fits(Created(), w) && w.labels == []
  {
    Write([], map[g := x])
  }

  /** Every vector after one update, registered or not. */
  function Written(s: Snapshot): (g: Gauges<Gauge>)
    ensures g.Keys == Created().Keys
  {
    Apply(Created(), Updates(s))
  }

  /** The series one request exposes: the maximum-speed vector alone. */
  function Publish(s: Snapshot): (exposed: Gauges<Gauge>)
    ensures forall c :: c in exposed <==> c == FanMaxSpeed
    ensures forall c :: c in exposed ==> exposed[c] == Written(s)[c]
  {
    Gather(Register(NewRegistry()), Written(s))
  }

  // ---------------------------------------------------------------------
  // Which fan a series shows

  /** The last fan in `fans` carrying `fanName`: an independent statement of
      which fan a series ends up showing. */
  function LastFan(fans: seq<FanStatus>, fanName: string): Option<FanStatus>
    decreases |fans|
  {
    if fans == [] then None
    else if fans[|fans| - 1].fanLabel == fanName then Some(fans[|fans| - 1])
    else LastFan(fans[..|fans| - 1], fanName)
  }

  /** The value a fan's series shows: the speed of the last fan with its label. */
  function ShownValue(fans: seq<FanStatus>, fanName: string, g: Gauge): Option<real>
    requires IsFanGauge(g)
  {
    match LastFan(fans, fanName)
    case None => None
    case Some(f) => Some(FanValue(f, g))
  }

  /** The loop over `fans` leaves at (tray, fanName) the speeds of the last fan
      labelled `fanName`, and nothing when no fan has that label. */
  lemma {:induction false} LastFanWrites(tray: string, fans: seq<FanStatus>, fanName: string, g: Gauge)
    requires IsFanGauge(g)
    ensures Last(FanWrites(tray, fans), g, [tray, fanName]) == ShownValue(fans, fanName, g)
    decreases |fans|
  {
    var t := [tray, fanName];
    if fans == [] {
      assert FanWrites(tray, fans) == [];
    } else {
      var n := |fans| - 1;
      var ws := FanWrites(tray, fans);
      var w := FanWrite(tray, fans[n]);
      assert ws[..|ws| - 1] == FanWrites(tray, fans[..n]);
      assert ws[|ws| - 1] == w;
      if fans[n].fanLabel == fanName {
        assert w.labels == t && g in w.values;
        assert Last(ws, g, t) == Some(FanValue(fans[n], g));
        assert LastFan(fans, fanName) == Some(fans[n]);
      } else {
        assert [tray, fans[n].fanLabel] != [tray, fanName] by {
          assert [tray, fans[n].fanLabel][1] != [tray, fanName][1];
        }
        LastFanWrites(tray, fans[..n], fanName, g);
      }
    }
  }

  /** No write of `ws` has a tuple tagged `tray`, so the series there stay unset. */
  lemma {:induction false} OtherTray(ws: seq<Write<Gauge>>, tray: string, other: string, fanName: string, g: Gauge)
    requires forall i :: 0 <= i < |ws| ==> |ws[i].labels| == 2 && ws[i].labels[0] == other
    requires tray != other
    ensures Last(ws, g, [tray, fanName]) == None
  {
    LastNotAt(ws, g, [tray, fanName]);
  }

  /** What the update leaves at ("psu", fanName) and ("fanslot", fanName): power
      supply fans and fan-tray fans never overwrite each other. */
  lemma {:induction false} LastWrites(s: Snapshot, fanName: string, g: Gauge)
    requires IsFanGauge(g)
    ensures Last(Updates(s), g, ["psu", fanName]) == ShownValue(SlotFans(s.powerSupplySlots), fanName, g)
    ensures Last(Updates(s), g, ["fanslot", fanName]) == ShownValue(SlotFans(s.fanTraySlots), fanName, g)
  {
    var h, p, f := Header(s), FanWrites("psu", SlotFans(s.powerSupplySlots)), FanWrites("fanslot", SlotFans(s.fanTraySlots));
    LastAppend(h + p, f, g, ["psu", fanName]);
    LastAppend(h, p, g, ["psu", fanName]);
    LastAppend(h + p, f, g, ["fanslot", fanName]);
    LastAppend(h, p, g, ["fanslot", fanName]);
    LastNotAt(h, g, ["psu", fanName]);
    LastNotAt(h, g, ["fanslot", fanName]);
    OtherTray(f, "psu", "fanslot", fanName, g);
    OtherTray(p, "fanslot", "psu", fanName, g);
    LastFanWrites("psu", SlotFans(s.powerSupplySlots), fanName, g);
    LastFanWrites("fanslot", SlotFans(s.fanTraySlots), fanName, g);
  }

  /** fan_max_speed shows, for each tray kind and fan label, the maximum speed
      of the last fan of that kind with that label; same-labelled fans in two
      slots of one kind share a series. */
  lemma {:induction false} PublishedMaxSpeed(s: Snapshot, fanName: string)
    ensures Lookup(Publish(s)[FanMaxSpeed], ["psu", fanName]) == ShownValue(SlotFans(s.powerSupplySlots), fanName, FanMaxSpeed)
    ensures Lookup(Publish(s)[FanMaxSpeed], ["fanslot", fanName]) == ShownValue(SlotFans(s.fanTraySlots), fanName, FanMaxSpeed)
  {
    LastWrites(s, fanName, FanMaxSpeed);
    WrittenIsLast(s, FanMaxSpeed, ["psu", fanName]);
    WrittenIsLast(s, FanMaxSpeed, ["fanslot", fanName]);
  }

  /** Every series of the written vectors holds its last write. */
  lemma {:induction false} WrittenIsLast(s: Snapshot, c: Gauge, t: Tuple)
    ensures Lookup(Written(s)[c], t) == Last(Updates(s), c, t)
  {
    assert Lookup(Created()[c], t) == None;
  }

  /** The exposed series are all tagged "psu" or "fanslot". */
  lemma {:induction false} ExposedTuples(s: Snapshot, t: Tuple)
    requires t in Publish(s)[FanMaxSpeed].series
    ensures |t| == 2 && (t[0] == "psu" || t[0] == "fanslot")
  {
    if !(|t| == 2 && (t[0] == "psu" || t[0] == "fanslot")) {
      UntaggedNone(s, FanMaxSpeed, t);
      HeaderNoFan(s, FanMaxSpeed, t);
      WrittenIsLast(s, FanMaxSpeed, t);
    }
  }

  /** Writes all tagged with `tray` leave every other tuple alone. */
  lemma {:induction false} OffTray(ws: seq<Write<Gauge>>, tray: string, g: Gauge, t: Tuple)
    requires forall i :: 0 <= i < |ws| ==> |ws[i].labels| == 2 && ws[i].labels[0] == tray
    requires !(|t| == 2 && t[0] == tray)
    ensures Last(ws, g, t) == None
  {
    LastNotAt(ws, g, t);
  }

  /** No write of one update lands on a tuple outside the two fan trays
      except the header's. */
  lemma {:induction false} UntaggedNone(s: Snapshot, g: Gauge, t: Tuple)
    requires !(|t| == 2 && (t[0] == "psu" || t[0] == "fanslot"))
    ensures Last(Updates(s), g, t) == Last(Header(s), g, t)
  {
    var h, p, f := Header(s), FanWrites("psu", SlotFans(s.powerSupplySlots)), FanWrites("fanslot", SlotFans(s.fanTraySlots));
    OffTray(p, "psu", g, t);
    OffTray(f, "fanslot", g, t);
    LastAfterNone(h, p, f, g, t);
  }

  /** The fan loops leave the header's gauges alone. */
  lemma {:induction false} FansLeaveOthers(s: Snapshot, g: Gauge, t: Tuple)
    requires !IsFanGauge(g)
    ensures Last(Updates(s), g, t) == Last(Header(s), g, t)
  {
    var p, f := FanWrites("psu", SlotFans(s.powerSupplySlots)), FanWrites("fanslot", SlotFans(s.fanTraySlots));
    LastSkipsUntouched(Header(s), p, f, g, t);
  }

  /** The tuple the header writes each of its three gauges at. */
  function HeaderTuple(s: Snapshot, g: Gauge): (t: Tuple)
    requires !IsFanGauge(g)
    ensures |t| == |Labels(g)|
  {
    if g == Meta then MetaTuple(s) else []
  }

  /** The value the header writes: 1 for meta, else the snapshot's field. */
  function HeaderValue(s: Snapshot, g: Gauge): real
    requires !IsFanGauge(g)
  {
    if g == Meta then 1.0
    else if g == AmbientTemperature then s.ambientTemperature
    else s.overrideFanSpeed as real
  }

  /** The meta series and both unlabeled gauges end the update holding what
      the header wrote; none of the three is registered, so none is exposed. */
  lemma {:induction false} HiddenGauges(s: Snapshot, g: Gauge)
    requires !IsFanGauge(g)
    ensures Lookup(Written(s)[g], HeaderTuple(s, g)) == Some(HeaderValue(s, g))
    ensures g !in Publish(s)
  {
    HeaderLast(s, g);
    FansLeaveOthers(s, g, HeaderTuple(s, g));
    WrittenIsLast(s, g, HeaderTuple(s, g));
  }

  /** What the three header writes leave behind. */
  lemma {:induction false} HeaderLast(s: Snapshot, g: Gauge)
    requires !IsFanGauge(g)
    ensures Last(Header(s), g, HeaderTuple(s, g)) == Some(HeaderValue(s, g))
  {
    var ws := Header(s);
    LastOfThree(ws[0], ws[1], ws[2], g, HeaderTuple(s, g));
  }

  /** The header writes none of the per-fan gauges. */
  lemma {:induction false} HeaderNoFan(s: Snapshot, g: Gauge, t: Tuple)
    requires IsFanGauge(g)
    ensures Last(Header(s), g, t) == None
  {
    var ws := Header(s);
    LastOfThree(ws[0], ws[1], ws[2], g, t);
  }
}
