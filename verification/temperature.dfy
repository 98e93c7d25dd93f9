/** The temperature collector: six readings per sensor, for the system's own
    sensors and for the sensors inside each power-supply slot. */
module Temperature {
  import opened Metrics
  import Opts

  /** One sensor in the reply to `show environment temperature`. */
  datatype Sensor = Sensor(
    maxTemperature: real,
    maxTemperatureLastChange: real,
    hwStatus: string,
    alertCount: int,
    description: string,
    overheatThreshold: int,
    criticalThreshold: int,
    inAlertState: bool,
    targetTemperature: int,
    relPos: string,
    currentTemperature: real,
    pidDriverCount: int,
    isPidDriver: bool,
    sensorName: string)

  /** A power-supply slot and the sensors inside it. */
  datatype PsuSlot = PsuSlot(entPhysicalClass: string, relativePosition: string, sensors: seq<Sensor>)

  /** The decoded reply. */
  datatype Snapshot = Snapshot(
    shutdownOnOverheat: bool,
    systemStatus: string,
    sensors: seq<Sensor>,
    powerSupplySlots: seq<PsuSlot>)

  const Command: string := "show environment temperature"

  const Subsystem: string := "temperature"

  /** The six gauges `Register` creates, one per reading. */
  datatype Gauge =
    | MaxTemp | TempAlert | OverheatThreshold
    | CriticalThreshold | TargetTemp | CurrentTemp

  const AllGauges: seq<Gauge> :=
    [MaxTemp, TempAlert, OverheatThreshold, CriticalThreshold, TargetTemp, CurrentTemp]

  function Name(g: Gauge): string {
    match g
    case MaxTemp => "max_temp"
    case TempAlert => "temp_alert"
    case OverheatThreshold => "overheat_threshold"
    case CriticalThreshold => "critical_threshold"
    case TargetTemp => "target_temp"
    case CurrentTemp => "current_temp"
  }

  function Help(g: Gauge): string {
    match g
    case MaxTemp => "The highest temperature that this sensor has hit"
    case TempAlert => "Temperature Sensor Alert Count"
    case OverheatThreshold => "Overheat Temperature Threshold"
    case CriticalThreshold => "Critical Temperature Threshold"
    case TargetTemp => "Target Temperature"
    case CurrentTemp => "Current Temperature"
  }

  /** Every gauge shares one schema: the sensor's name and description. */
  const SensorLabels: seq<string> := ["sensorName", "sensorDescription"]

  /** The options each gauge is created with. */
  function OptsOf(g: Gauge): (o: GaugeOpts)
    ensures o.namespace == Opts.Namespace && o.subsystem == Subsystem && o.name == Name(g)
  {
    Opts.MakeSubsystemOptsFactory(Subsystem)(Name(g), Help(g))
  }

  /** The gauge a metric name belongs to, if any. */
  function Named(name: string): Option<Gauge> {
    if name == "max_temp" then Some(MaxTemp)
    else if name == "temp_alert" then Some(TempAlert)
    else if name == "overheat_threshold" then Some(OverheatThreshold)
    else if name == "critical_threshold" then Some(CriticalThreshold)
    else if name == "target_temp" then Some(TargetTemp)
    else if name == "current_temp" then Some(CurrentTemp)
    else None
  }

  /** Each gauge's name leads back to it. */
  lemma {:induction false} NameRoundTrip(g: Gauge)
    ensures Named(Name(g)) == Some(g)
  {
    match g
    case MaxTemp =>
    case TempAlert =>
    case OverheatThreshold =>
    case CriticalThreshold =>
    case TargetTemp =>
    case CurrentTemp =>
  }

  /** Distinct gauges are distinct descriptors, so a gauge stands for its options. */
  lemma {:induction false} OptsInjective(a: Gauge, b: Gauge)
    requires OptsOf(a) == OptsOf(b)
    ensures a == b
  {
    NameRoundTrip(a);
    NameRoundTrip(b);
  }

  /** `AllGauges` names every gauge once. */
  lemma {:induction false} GaugeLists()
    ensures forall g :: g in AllGauges
    ensures forall i, j :: 0 <= i < j < |AllGauges| ==> AllGauges[i] != AllGauges[j]
  {
    forall g ensures g in AllGauges {
      match g
      case MaxTemp => assert AllGauges[0] == g;
      case TempAlert => assert AllGauges[1] == g;
      case OverheatThreshold => assert AllGauges[2] == g;
      case CriticalThreshold => assert AllGauges[3] == g;
      case TargetTemp => assert AllGauges[4] == g;
      case CurrentTemp => assert AllGauges[5] == g;
    }
  }

  /** The vectors `Register` creates: six, all with the sensor schema. */
  function Created(): (g: Gauges<Gauge>)
    ensures Fresh(g)
    ensures forall c :: c in g
    ensures forall c :: c in g ==> g[c].labelNames == SensorLabels
  {
    GaugeLists();
    map c | c in AllGauges :: NewGaugeVec(SensorLabels)
  }

  /** `Register`: all six vectors are registered. */
  function Register(r: Registry<Gauge>): (r': Registry<Gauge>)
    requires forall c :: c !in r.registered
    ensures forall c :: c in r'.registered
  {
    GaugeLists();
    MustRegister(r, AllGauges)
  }

  /** The reading each gauge takes from a sensor; the integer fields are
      converted to floating point. */
  function Reading(x: Sensor, g: Gauge): real {
    match g
    case MaxTemp => x.maxTemperature
    case TempAlert => x.alertCount as real
    case OverheatThreshold => x.overheatThreshold as real
    case CriticalThreshold => x.criticalThreshold as real
    case TargetTemp => x.targetTemperature as real
    case CurrentTemp => x.currentTemperature
  }

  /** The series a sensor is shown under. */
  function SensorTuple(x: Sensor): (t: Tuple)
    ensures |t| == |SensorLabels| && t[0] == x.sensorName && t[1] == x.description
  {
    [x.sensorName, x.description]
  }

  /** One loop body: the six readings of `x` at its (name, description). */
  function SensorWrite(x: Sensor): (w: Write<Gauge>)
    ensures Fits(Created(), w)
    ensures w.labels == SensorTuple(x)
    ensures forall c :: c in w.values
    ensures forall c :: c in w.values ==> w.values[c] == Reading(x, c)
  {
    GaugeLists();
    Write(SensorTuple(x), map c | c in AllGauges :: Reading(x, c))
  }

  /** A loop over `xs`, one write per sensor. */
  function SensorWrites(xs: seq<Sensor>): (ws: seq<Write<Gauge>>)
    ensures |ws| == |xs|
    ensures forall i :: 0 <= i < |ws| ==> ws[i] == SensorWrite(xs[i])
    ensures AllFit(Created(), ws)
    decreases |xs|
  {
    if xs == [] then [] else SensorWrites(xs[..|xs| - 1]) + [SensorWrite(xs[|xs| - 1])]
  }

  /** The sensors of the power-supply slots, slot by slot, as the nested loop visits them. */
  function SlotSensors(slots: seq<PsuSlot>): (xs: seq<Sensor>)
    decreases |slots|
  {
    if slots == [] then [] else SlotSensors(slots[..|slots| - 1]) + slots[|slots| - 1].sensors
  }

  /** `UpdateMetrics`: the system's sensors, then every power supply's sensors. */
  function Updates(s: Snapshot): (ws: seq<Write<Gauge>>)
    ensures AllFit(Created(), ws)
  {
    SensorWrites(s.sensors) + SensorWrites(SlotSensors(s.powerSupplySlots))
  }

  /** Every vector after one update. */
  function Written(s: Snapshot): (g: Gauges<Gauge>)
    ensures g.Keys == Created().Keys
  {
    Apply(Created(), Updates(s))
  }

  /** The series one request exposes: all six vectors. */
  function Publish(s: Snapshot): (exposed: Gauges<Gauge>)
    ensures forall c :: c in exposed && exposed[c] == Written(s)[c]
  {
    Gather(Register(NewRegistry()), Written(s))
  }

  // ---------------------------------------------------------------------
  // Which sensor a series shows

  /** Every sensor the update visits, in visiting order. */
  function AllSensors(s: Snapshot): seq<Sensor> {
    s.sensors + SlotSensors(s.powerSupplySlots)
  }

  /** The last sensor of `xs` shown at tuple `t`: an independent statement of
      which sensor a series ends up showing. */
  function LastSensor(xs: seq<Sensor>, t: Tuple): Option<Sensor>
    decreases |xs|
  {
    if xs == [] then None
    else if SensorTuple(xs[|xs| - 1]) == t then Some(xs[|xs| - 1])
    else LastSensor(xs[..|xs| - 1], t)
  }

  /** The value a series shows: the reading of the last sensor at its tuple. */
  function ShownValue(xs: seq<Sensor>, t: Tuple, g: Gauge): Option<real> {
    match LastSensor(xs, t)
    case None => None
    case Some(x) => Some(Reading(x, g))
  }

  /** A loop over `xs` leaves at `t` the reading of the last sensor shown there. */
  lemma {:induction false} LastSensorWrites(xs: seq<Sensor>, t: Tuple, g: Gauge)
    ensures Last(SensorWrites(xs), g, t) == ShownValue(xs, t, g)
    decreases |xs|
  {
    if xs != [] {
      var n := |xs| - 1;
      var ws := SensorWrites(xs);
      assert ws[..n] == SensorWrites(xs[..n]);
      if SensorTuple(xs[n]) == t {
        assert Last(ws, g, t) == Some(Reading(xs[n], g));
      } else {
        LastSensorWrites(xs[..n], t, g);
      }
    }
  }

  /** Looking for the last sensor of two runs finds the second run's first. */
  lemma {:induction false} LastSensorAppend(a: seq<Sensor>, b: seq<Sensor>, t: Tuple)
    ensures LastSensor(a + b, t) == LastSensor(b, t).Or(LastSensor(a, t))
    decreases |b|
  {
    if b == [] {
      assert a + b == a;
    } else {
      var n := |b| - 1;
      assert (a + b)[..|a + b| - 1] == a + b[..n];
      assert (a + b)[|a + b| - 1] == b[n];
      if SensorTuple(b[n]) != t {
        LastSensorAppend(a, b[..n], t);
      }
    }
  }

  /** Every series a request exposes shows the reading of the last visited
      sensor with that name and description, and there is a series exactly
      where some sensor was visited. */
  lemma {:induction false} PublishedReadings(s: Snapshot, t: Tuple, g: Gauge)
    ensures Lookup(Publish(s)[g], t) == ShownValue(AllSensors(s), t, g)
  {
    var a, b := s.sensors, SlotSensors(s.powerSupplySlots);
    LastAppend(SensorWrites(a), SensorWrites(b), g, t);
    LastSensorWrites(a, t, g);
    LastSensorWrites(b, t, g);
    LastSensorAppend(a, b, t);
    assert Lookup(Created()[g], t) == None;
  }

  /** A power-supply sensor with the same name and description as a system
      sensor overwrites it. */
  lemma {:induction false} PowerSupplyWins(s: Snapshot, x: Sensor, g: Gauge)
    requires x in s.sensors
    requires LastSensor(SlotSensors(s.powerSupplySlots), SensorTuple(x)) != None
    ensures Lookup(Publish(s)[g], SensorTuple(x))
         == Some(Reading(LastSensor(SlotSensors(s.powerSupplySlots), SensorTuple(x)).value, g))
  {
    PublishedReadings(s, SensorTuple(x), g);
    LastSensorAppend(s.sensors, SlotSensors(s.powerSupplySlots), SensorTuple(x));
  }

  /** A sensor is found at `t` exactly when some sensor of `xs` is shown at
      `t`, and the one found is one of them. */
  lemma {:induction false} LastSensorFound(xs: seq<Sensor>, t: Tuple)
    ensures LastSensor(xs, t) != None <==> exists x :: x in xs && SensorTuple(x) == t
    ensures LastSensor(xs, t) != None ==> LastSensor(xs, t).value in xs && SensorTuple(LastSensor(xs, t).value) == t
    decreases |xs|
  {
    if xs != [] {
      var n := |xs| - 1;
      LastSensorFound(xs[..n], t);
      assert xs == xs[..n] + [xs[n]];
      if SensorTuple(xs[n]) != t {
        if exists x :: x in xs && SensorTuple(x) == t {
          var x :| x in xs && SensorTuple(x) == t;
          assert x in xs[..n];
        }
      }
    }
  }

  /** Series exist exactly at the tuples of visited sensors. */
  lemma {:induction false} SeriesOnlyForSensors(s: Snapshot, t: Tuple, g: Gauge)
    ensures t in Publish(s)[g].series <==> exists x :: x in AllSensors(s) && SensorTuple(x) == t
  {
    PublishedReadings(s, t, g);
    LastSensorFound(AllSensors(s), t);
  }

  /** The reply's fields that no gauge reads play no part in what is exposed. */
  lemma {:induction false} UnreadFieldsIgnored(s: Snapshot, b: bool, status: string)
    ensures Publish(s.(shutdownOnOverheat := b, systemStatus := status)) == Publish(s)
  {
    assert Updates(s.(shutdownOnOverheat := b, systemStatus := status)) == Updates(s);
  }
}
