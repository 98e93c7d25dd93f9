/** The power collector: one meta series and four readings per power supply. */
module Power {
  import opened Metrics
  import opened GoMaps
  import GoStrings
  import Opts

  /** A fan of a power supply; decoded but not exported. */
  datatype PsuFanStatus = PsuFanStatus(status: string, speed: int)

  /** A temperature sensor of a power supply; decoded but not exported. */
  datatype TempSensor = TempSensor(status: string, temperature: int)

  /** One power supply in the reply to `show system environment power`. */
  datatype PowerSupply = PowerSupply(
    outputPower: real,
    state: string,
    modelName: string,
    capacity: int,
    inputCurrent: real,
    outputCurrent: real,
    uptime: real,
    managed: bool,
    tempSensors: map<string, TempSensor>,
    fans: map<string, PsuFanStatus>)

  /** The decoded reply, keyed by power-supply id. */
  datatype Snapshot = Snapshot(powerSupplies: map<string, PowerSupply>)

  const Command: string := "show system environment power"

  const Subsystem: string := "power_supply"

  /** The six gauges `Register` creates. */
  datatype Gauge = Meta | Capacity | Uptime | CurrentIn | CurrentOut | Power

  /** The gauges in the order `Register` creates them. */
  const AllGauges: seq<Gauge> := [Meta, Capacity, Uptime, CurrentIn, CurrentOut, Power]

  /** The gauges `Register` hands to the registry: all but capacity. */
  const RegisteredGauges: seq<Gauge> := [Meta, Uptime, CurrentIn, CurrentOut, Power]

  /** The gauges set at the tuple (psuId). */
  const ReadingGauges: seq<Gauge> := [Capacity, Uptime, CurrentIn, CurrentOut, Power]

  function Name(g: Gauge): string {
    match g
    case Meta => "meta"
    case Capacity => "capacity"
    case Uptime => "uptime"
    case CurrentIn => "current_in"
    case CurrentOut => "current_out"
    case Power => "power"
  }

  function Help(g: Gauge): string {
    match g
    case Meta => "Provides meta-info about each power supply unit. The gauge value can be 0 or 1, where 1 is set when the PSU State is OK"
    case Capacity => "Power Supply Capacity, in Watts"
    case Uptime => "PSU Uptime"
    case CurrentIn => "Input Current from wall in AC amps"
    case CurrentOut => "Output Current to device in DC amps "
    case Power => "Power consumption in watts"
  }

  /** The meta gauge describes a supply; the others carry one value per id. */
  function Labels(g: Gauge): seq<string> {
    if g == Meta then ["psuId", "model", "capacity", "managed"] else ["psuId"]
  }

  /** The options each gauge is created with. */
  function OptsOf(g: Gauge): (o: GaugeOpts)
    ensures o.namespace == Opts.Namespace && o.subsystem == Subsystem && o.name == Name(g)
  {
    Opts.MakeSubsystemOptsFactory(Subsystem)(Name(g), Help(g))
  }

  /** The gauge a metric name belongs to, if any. */
  function Named(name: string): Option<Gauge> {
    if name == "meta" then Some(Meta)
    else if name == "capacity" then Some(Capacity)
    else if name == "uptime" then Some(Uptime)
    else if name == "current_in" then Some(CurrentIn)
    else if name == "current_out" then Some(CurrentOut)
    else if name == "power" then Some(Power)
    else None
  }

  /** Each gauge's name leads back to it. */
  lemma {:induction false} NameRoundTrip(g: Gauge)
    ensures Named(Name(g)) == Some(g)
  {
    match g
    case Meta =>
    case Capacity =>
    case Uptime =>
    case CurrentIn =>
    case CurrentOut =>
    case Power =>
  }

  /** Distinct gauges are distinct descriptors, so a gauge stands for its options. */
  lemma {:induction false} OptsInjective(a: Gauge, b: Gauge)
    requires OptsOf(a) == OptsOf(b)
    ensures a == b
  {
    NameRoundTrip(a);
    NameRoundTrip(b);
  }

  /** Each list names each gauge once; `AllGauges` names them all. */
  lemma {:induction false} GaugeLists()
    ensures forall g :: g in AllGauges
    ensures forall i, j :: 0 <= i < j < |RegisteredGauges| ==> RegisteredGauges[i] != RegisteredGauges[j]
    ensures forall g :: g in RegisteredGauges <==> g != Capacity
    ensures forall g :: g in ReadingGauges <==> g != Meta
  {
    forall g ensures g in AllGauges && (g in RegisteredGauges <==> g != Capacity) && (g in ReadingGauges <==> g != Meta) {
      match g
      case Meta => assert AllGauges[0] == g && RegisteredGauges[0] == g;
      case Capacity => assert AllGauges[1] == g && ReadingGauges[0] == g;
      case Uptime => assert AllGauges[2] == g && RegisteredGauges[1] == g && ReadingGauges[1] == g;
      case CurrentIn => assert AllGauges[3] == g && RegisteredGauges[2] == g && ReadingGauges[2] == g;
      case CurrentOut => assert AllGauges[4] == g && RegisteredGauges[3] == g && ReadingGauges[3] == g;
      case Power => assert AllGauges[5] == g && RegisteredGauges[4] == g && ReadingGauges[4] == g;
    }
  }

  /** The vectors `Register` creates: all six, with the schemas of `Labels`. */
  function Created(): (g: Gauges<Gauge>)
    ensures Fresh(g)
    ensures forall c :: c in g && g[c].labelNames == Labels(c)
  {
    GaugeLists();
    map c | c in AllGauges :: NewGaugeVec(Labels(c))
  }

  /** `Register`: registers five of the six vectors; capacity stays out. */
  function Register(r: Registry<Gauge>): (r': Registry<Gauge>)
    requires forall c :: c != Capacity ==> c !in r.registered
    ensures forall c :: c in r'.registered <==> c in r.registered || c != Capacity
    ensures |r'.registered| == |r.registered| + 5
  {
    GaugeLists();
    MustRegister(r, RegisteredGauges)
  }

  /** The meta value as the loop computes it: both branches of the state test
      set 1, so every supply gets 1. */
  function MetaValueAsWritten(p: PowerSupply): (v: real)
    ensures v == 1.0
  {
    if p.state == "ok" then 1.0 else 1.0
  }

  /** The meta value the help text of the meta gauge describes (power.go:50):
      1 for a supply whose state is "ok", 0 for any other. The update does not
      use it; it writes `MetaValueAsWritten`. */
  function MetaValue(p: PowerSupply): (v: real)
    ensures v == 1.0 <==> p.state == "ok"
    ensures v == 0.0 <==> p.state != "ok"
  {
    if p.state == "ok" then 1.0 else 0.0
  }

  /** For every supply that is not ok, the value as written reports it ok. */
  lemma {:induction false} MetaIgnoresState(p: PowerSupply)
    requires p.state != "ok"
    ensures MetaValueAsWritten(p) == 1.0 && MetaValue(p) == 0.0
  {
  }

  /** The meta labels: id, model, capacity in decimal and managed as
      "true"/"false"; the capacity and managed labels read back as the fields. */
  function MetaTuple(id: string, p: PowerSupply): (t: Tuple)
    ensures |t| == |Labels(Meta)| && t[0] == id && t[1] == p.modelName
    ensures t[2] == GoStrings.Itoa(p.capacity) && GoStrings.Atoi(t[2]) == p.capacity
    ensures t[3] == "true" <==> p.managed
    ensures t[3] == "false" <==> !p.managed
  {
    GoStrings.ItoaRoundTrip(p.capacity);
    [id, p.modelName, GoStrings.Itoa(p.capacity), GoStrings.FormatBool(p.managed)]
  }

  /** The value each gauge other than meta takes at the tuple (psuId). */
  function Reading(p: PowerSupply, g: Gauge): real
    requires g != Meta
  {
    match g
    case Capacity => p.capacity as real
    case Uptime => p.uptime
    case CurrentIn => p.inputCurrent
    case CurrentOut => p.outputCurrent
    case Power => p.outputPower
  }

  /** The readings set at the tuple (psuId): every gauge but meta. */
  function Readings(p: PowerSupply): (values: map<Gauge, real>)
    ensures forall c :: c in values <==> c != Meta
    ensures forall c :: c in values ==> values[c] == Reading(p, c)
  {
    GaugeLists();
    map c | c in ReadingGauges :: Reading(p, c)
  }

  /** One iteration of `UpdateMetrics`: the meta series, then the readings. */
  function PsuWrites(e: (string, PowerSupply)): (ws: seq<Write<Gauge>>)
    ensures AllFit(Created(), ws)
    ensures Tuples(ws) == {MetaTuple(e.0, e.1), [e.0]}
  {
    var ws := [Write(MetaTuple(e.0, e.1), map[Meta := MetaValueAsWritten(e.1)]), Write([e.0], Readings(e.1))];
    assert ws[0] in ws && ws[1] in ws;
    ws
  }

  /** `UpdateMetrics`, visiting the supplies in `order`. */
  function Updates(s: Snapshot, order: seq<string>): (ws: seq<Write<Gauge>>)
    requires Enumerates(order, s.powerSupplies.Keys)
    ensures AllFit(Created(), ws)
  {
    var items := Entries(s.powerSupplies, order);
    EachFits(Created(), items, PsuWrites);
    Each(items, PsuWrites)
  }

  /** Every vector after one update, registered or not. */
  function Written(s: Snapshot, order: seq<string>): (g: Gauges<Gauge>)
    requires Enumerates(order, s.powerSupplies.Keys)
    ensures g.Keys == Created().Keys
  {
    Apply(Created(), Updates(s, order))
  }

  /** The series one request exposes for this collector: the five registered
      vectors, never capacity. */
  function Publish(s: Snapshot, order: seq<string>): (exposed: Gauges<Gauge>)
    requires Enumerates(order, s.powerSupplies.Keys)
    ensures forall c :: c in exposed <==> c != Capacity
    ensures forall c :: c in exposed ==> exposed[c] == Written(s, order)[c]
  {
    Gather(Register(NewRegistry()), Written(s, order))
  }

  // ---------------------------------------------------------------------
  // Nil entries

  /** The reply as `UpdateMetrics` ranges over it, a `map[string]*PowerSupply`:
      a JSON `null` entry decodes to a nil pointer, here `None`. */
  datatype Reply = Reply(powerSupplies: map<string, Option<PowerSupply>>)

  /** The reply with every pointer followed. Each iteration of `UpdateMetrics`
      first reads `psu.State`, so one nil entry panics the request and nothing
      is exposed (`None`); otherwise the reply is a snapshot of the same supplies. */
  function Deref(r: Reply): (s: Option<Snapshot>)
    ensures s.None? <==> exists id :: id in r.powerSupplies && r.powerSupplies[id].None?
    ensures s.Some? ==> s.value.powerSupplies.Keys == r.powerSupplies.Keys
    ensures s.Some? ==> forall id :: id in r.powerSupplies ==> r.powerSupplies[id] == Some(s.value.powerSupplies[id])
  {
    if exists id :: id in r.powerSupplies && r.powerSupplies[id].None? then None
    else Some(Snapshot(map id | id in r.powerSupplies :: r.powerSupplies[id].value))
  }

  /** The reply a snapshot decodes from when no entry is `null`. */
  function Pointers(s: Snapshot): (r: Reply)
    ensures r.powerSupplies.Keys == s.powerSupplies.Keys
    ensures forall id :: id in r.powerSupplies ==> r.powerSupplies[id] == Some(s.powerSupplies[id])
  {
    Reply(map id | id in s.powerSupplies :: Some(s.powerSupplies[id]))
  }

  /** Following the pointers of a nil-free reply gives back the snapshot. */
  lemma {:induction false} DerefPointers(s: Snapshot)
    ensures Deref(Pointers(s)) == Some(s)
  {
    var d := Deref(Pointers(s));
    assert d.Some?;
    assert d.value.powerSupplies == s.powerSupplies;
  }

  // ---------------------------------------------------------------------
  // Published series

  /** A supply writes no tuple that starts with another id. */
  lemma {:induction false} OtherSupply(k: (string, PowerSupply), o: Gauge, t: Tuple)
    requires |t| == 0 || t[0] != k.0
    ensures Last(PsuWrites(k), o, t) == None
  {
    var ws := PsuWrites(k);
    assert |ws| == 2 && ws[0].labels == MetaTuple(k.0, k.1) && ws[1].labels == [k.0];
    LastNotAt(ws, o, t);
  }

  /** Only supply `id` writes tuples that start with `id`. */
  lemma {:induction false} OnlyOwnTuples(s: Snapshot, order: seq<string>, id: string, o: Gauge, t: Tuple)
    requires Enumerates(order, s.powerSupplies.Keys)
    requires id in s.powerSupplies && |t| >= 1 && t[0] == id
    ensures Last(Updates(s, order), o, t) == Last(PsuWrites((id, s.powerSupplies[id])), o, t)
  {
    var m := s.powerSupplies;
    var items := Entries(m, order);
    EntriesOfEnumeration(m, order);
    forall k | k in items && k != (id, m[id]) ensures Last(PsuWrites(k), o, t) == None {
      OtherSupply(k, o, t);
    }
    LastEachUnique(items, PsuWrites, (id, m[id]), o, t);
  }

  /** Each supply's uptime, input current, output current and power are
      exposed at the tuple (psuId). */
  lemma {:induction false} PublishedReadings(s: Snapshot, order: seq<string>, id: string, c: Gauge)
    requires Enumerates(order, s.powerSupplies.Keys)
    requires id in s.powerSupplies && c != Meta && c != Capacity
    ensures Lookup(Publish(s, order)[c], [id]) == Some(Reading(s.powerSupplies[id], c))
  {
    OnlyOwnTuples(s, order, id, c, [id]);
    assert Lookup(Created()[c], [id]) == None;
  }

  /** Each supply's meta series is exposed with value 1, whatever its state. */
  lemma {:induction false} PublishedMeta(s: Snapshot, order: seq<string>, id: string)
    requires Enumerates(order, s.powerSupplies.Keys)
    requires id in s.powerSupplies
    ensures Lookup(Publish(s, order)[Meta], MetaTuple(id, s.powerSupplies[id])) == Some(1.0)
  {
    var t := MetaTuple(id, s.powerSupplies[id]);
    var ws := PsuWrites((id, s.powerSupplies[id]));
    OnlyOwnTuples(s, order, id, Meta, t);
    assert ws[..1][..0] == [];
    assert Last(ws, Meta, t) == Some(1.0);
    assert Lookup(Created()[Meta], t) == None;
  }

  /** For a supply that is not ok, the exposed meta value is not the one the
      help text describes. */
  lemma {:induction false} PublishedMetaMisreports(s: Snapshot, order: seq<string>, id: string)
    requires Enumerates(order, s.powerSupplies.Keys)
    requires id in s.powerSupplies && s.powerSupplies[id].state != "ok"
    ensures Lookup(Publish(s, order)[Meta], MetaTuple(id, s.powerSupplies[id])) != Some(MetaValue(s.powerSupplies[id]))
  {
    PublishedMeta(s, order, id);
    MetaIgnoresState(s.powerSupplies[id]);
  }

  /** Capacity is written for every supply but never exposed. */
  lemma {:induction false} CapacityHidden(s: Snapshot, order: seq<string>, id: string)
    requires Enumerates(order, s.powerSupplies.Keys)
    requires id in s.powerSupplies
    ensures Lookup(Written(s, order)[Capacity], [id]) == Some(s.powerSupplies[id].capacity as real)
    ensures Capacity !in Publish(s, order)
  {
    OnlyOwnTuples(s, order, id, Capacity, [id]);
    assert Lookup(Created()[Capacity], [id]) == None;
  }

  /** Only tuples that start with a supply id carry series. */
  lemma {:induction false} SeriesOnlyForSupplies(s: Snapshot, order: seq<string>, o: Gauge, t: Tuple)
    requires Enumerates(order, s.powerSupplies.Keys)
    requires o != Capacity
    requires |t| == 0 || t[0] !in s.powerSupplies
    ensures t !in Publish(s, order)[o].series
  {
    var items := Entries(s.powerSupplies, order);
    EntriesOfEnumeration(s.powerSupplies, order);
    forall k | k in items ensures Last(PsuWrites(k), o, t) == None {
      OtherSupply(k, o, t);
    }
    LastEachNone(items, PsuWrites, o, t);
    assert Lookup(Created()[o], t) == None;
    assert Lookup(Publish(s, order)[o], t) == None;
  }

  /** Two supplies never write a common tuple. */
  lemma {:induction false} DistinctSuppliesDisjoint(a: (string, PowerSupply), b: (string, PowerSupply))
    requires a.0 != b.0
    ensures Tuples(PsuWrites(a)) !! Tuples(PsuWrites(b))
  {
  }

  /** Every tuple starts with the supply id, so the exposed series never
      depend on the order the map is visited in. */
  lemma {:induction false} OrderIndependent(s: Snapshot, order1: seq<string>, order2: seq<string>)
    requires Enumerates(order1, s.powerSupplies.Keys) && Enumerates(order2, s.powerSupplies.Keys)
    ensures Publish(s, order1) == Publish(s, order2)
  {
    var m := s.powerSupplies;
    var items1, items2 := Entries(m, order1), Entries(m, order2);
    EntriesOfEnumeration(m, order1);
    EntriesOfEnumeration(m, order2);
    forall k1, k2 | k1 in items1 && k2 in items1 && k1 != k2
      ensures Tuples(PsuWrites(k1)) !! Tuples(PsuWrites(k2))
    {
      DistinctSuppliesDisjoint(k1, k2);
    }
    EachOrderIndependent(items1, items2, PsuWrites);
    ApplyDeterminedByLast(Created(), Updates(s, order1), Updates(s, order2));
  }
}
