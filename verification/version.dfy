/** The version collector: switch model, software version and memory. */
module Version {
  import opened Metrics
  import Opts

  /** The decoded reply to `show version`. */
  datatype Snapshot = Snapshot(
    uptime: real,
    modelName: string,
    internalVersion: string,
    systemMacAddress: string,
    serialNumber: string,
    bootupTimestamp: real,
    memTotal: int,
    memFree: int,
    version: string,
    architecture: string,
    isIntlVersion: bool,
    internalBuildId: string,
    hardwareRevision: string)

  const Command: string := "show version"

  const Subsystem: string := "meta"

  /** The four gauges `Register` creates. */
  datatype Gauge = MetaInfo | Uptime | MemoryTotal | MemoryFree

  const AllGauges: seq<Gauge> := [MetaInfo, Uptime, MemoryTotal, MemoryFree]

  function Name(g: Gauge): string {
    match g
    case MetaInfo => "version"
    case Uptime => "uptime"
    case MemoryTotal => "memory_total"
    case MemoryFree => "memory_free"
  }

  function Help(g: Gauge): string {
    match g
    case MetaInfo => "Meta-info about this target"
    case Uptime => "Uptime"
    case MemoryTotal => "Memory Total"
    case MemoryFree => "Memory Free"
  }

  const MetaLabels: seq<string> :=
    ["modelName", "systemMacAddress", "eosVersion", "serialNumber", "architecture", "hardwareRevision"]

  /** The meta gauge carries six labels; the other three none. */
  function Labels(g: Gauge): seq<string> {
    if g == MetaInfo then MetaLabels else []
  }

  /** The options each gauge is created with. */
  function OptsOf(g: Gauge): (o: GaugeOpts)
    ensures o.namespace == Opts.Namespace && o.subsystem == Subsystem && o.name == Name(g)
  {
    Opts.MakeSubsystemOptsFactory(Subsystem)(Name(g), Help(g))
  }

  /** The gauge a metric name belongs to, if any. */
  function Named(name: string): Option<Gauge> {
    if name == "version" then Some(MetaInfo)
    else if name == "uptime" then Some(Uptime)
    else if name == "memory_total" then Some(MemoryTotal)
    else if name == "memory_free" then Some(MemoryFree)
    else None
  }

  /** Each gauge's name leads back to it. */
  lemma {:induction false} NameRoundTrip(g: Gauge)
    ensures Named(Name(g)) == Some(g)
  {
    match g
    case MetaInfo =>
    case Uptime =>
    case MemoryTotal =>
    case MemoryFree =>
  }

  /** Distinct gauges are distinct descriptors, so a gauge stands for its options. */
  lemma {:induction false} OptsInjective(a: Gauge, b: Gauge)
    requires OptsOf(a) == OptsOf(b)
    ensures a == b
  {
    NameRoundTrip(a);
    NameRoundTrip(b);
  }

  /** `AllGauges` names every gauge once. */
  lemma {:induction false} GaugeLists()
    ensures forall g :: g in AllGauges
    ensures forall i, j :: 0 <= i < j < |AllGauges| ==> AllGauges[i] != AllGauges[j]
  {
    forall g ensures g in AllGauges {
      match g
      case MetaInfo => assert AllGauges[0] == g;
      case Uptime => assert AllGauges[1] == g;
      case MemoryTotal => assert AllGauges[2] == g;
      case MemoryFree => assert AllGauges[3] == g;
    }
  }

  /** The vectors `Register` creates: the meta vector with six labels and
      three unlabeled ones. */
  function Created(): (g: Gauges<Gauge>)
    ensures Fresh(g)
    ensures forall c :: c in g
    ensures forall c :: c in g ==> g[c].labelNames == Labels(c)
  {
    GaugeLists();
    map c | c in AllGauges :: NewGaugeVec(Labels(c))
  }

  /** `Register`: all four vectors are registered. */
  function Register(r: Registry<Gauge>): (r': Registry<Gauge>)
    requires forall c :: c !in r.registered
    ensures forall c :: c in r'.registered
  {
    GaugeLists();
    MustRegister(r, AllGauges)
  }

  /** The meta labels in schema order; the eosVersion label is `version`. */
  function MetaTuple(s: Snapshot): (t: Tuple)
    ensures |t| == |MetaLabels|
    ensures t[0] == s.modelName && t[1] == s.systemMacAddress && t[2] == s.version
    ensures t[3] == s.serialNumber && t[4] == s.architecture && t[5] == s.hardwareRevision
  {
    [s.modelName, s.systemMacAddress, s.version, s.serialNumber, s.architecture, s.hardwareRevision]
  }

  /** `UpdateMetrics`: the meta series set to 1, then the three unlabeled series. */
  function Updates(s: Snapshot): (ws: seq<Write<Gauge>>)
    ensures AllFit(Created(), ws)
  {
    [ Write(MetaTuple(s), map[MetaInfo := 1.0]),
      Write([], map[Uptime := s.uptime, MemoryTotal := s.memTotal as real, MemoryFree := s.memFree as real]) ]
  }

  /** The series one request exposes for this collector. */
  function Publish(s: Snapshot): (exposed: Gauges<Gauge>)
    ensures forall c :: c in exposed
  {
    Gather(Register(NewRegistry()), Apply(Created(), Updates(s)))
  }

  /** The one tuple each gauge is set at: the meta labels, or none. */
  function SeriesTuple(s: Snapshot, g: Gauge): (t: Tuple)
    ensures |t| == |Labels(g)|
    ensures g == MetaInfo ==> t[0] == s.modelName && t[1] == s.systemMacAddress && t[2] == s.version
    ensures g == MetaInfo ==> t[3] == s.serialNumber && t[4] == s.architecture && t[5] == s.hardwareRevision
  {
    if g == MetaInfo then MetaTuple(s) else []
  }

  /** The value each gauge is set to: 1 for the meta series, else the field. */
  function Value(s: Snapshot, g: Gauge): real {
    match g
    case MetaInfo => 1.0
    case Uptime => s.uptime
    case MemoryTotal => s.memTotal as real
    case MemoryFree => s.memFree as real
  }

  /** The last value the update writes to each series. */
  lemma {:induction false} LastUpdates(s: Snapshot, g: Gauge)
    ensures forall t :: Last(Updates(s), g, t) == if t == SeriesTuple(s, g) then Some(Value(s, g)) else None
  {
    var ws := Updates(s);
    assert ws[..1][..0] == [];
    forall t ensures Last(ws, g, t) == if t == SeriesTuple(s, g) then Some(Value(s, g)) else None {
      assert Last(ws[..1][..0], g, t) == None;
    }
  }

  /** One update exposes exactly one series per gauge: the meta series at the
      snapshot's labels with value 1, and the three values at the empty tuple. */
  lemma {:induction false} PublishedSeries(s: Snapshot, g: Gauge)
    ensures Publish(s)[g] == GaugeVec(Labels(g), map[SeriesTuple(s, g) := Value(s, g)])
  {
    LastUpdates(s, g);
    PublishedOne(Register(NewRegistry()), Created(), Updates(s), g, SeriesTuple(s, g), Value(s, g));
  }

  /** `internalVersion` plays no part in what is exposed. */
  lemma {:induction false} InternalVersionIgnored(s: Snapshot, v: string)
    ensures Publish(s.(internalVersion := v)) == Publish(s)
  {
    assert Updates(s.(internalVersion := v)) == Updates(s);
  }
}
