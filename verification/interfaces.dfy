/** The interfaces collector: per-interface packet, discard and octet counters. */
module Interfaces {
  import opened Metrics
  import opened GoMaps
  import GoStrings
  import Opts

  /** The counters of one interface in the reply to `show interfaces counters`. */
  datatype Interface = Interface(
    outBroadcastPkts: int,
    outUcastPkts: int,
    outMulticastPkts: int,
    outDiscards: int,
    outOctets: int,
    inBroadcastPkts: int,
    inUcastPkts: int,
    inMulticastPkts: int,
    inDiscards: int,
    inOctets: int,
    lastUpdateTimestamp: real)

  /** The decoded reply, keyed by interface name. */
  datatype Snapshot = Snapshot(interfaces: map<string, Interface>)

  const Command: string := "show interfaces counters"

  const Subsystem: string := "interface"

  /** The ten gauges of the collector, one per counter. */
  datatype Gauge =
    | BroadcastIn | UnicastIn | MulticastIn | DiscardsIn | OctetsIn
    | BroadcastOut | UnicastOut | MulticastOut | DiscardsOut | OctetsOut

  /** The gauges in the order `Register` registers them. */
  const AllGauges: seq<Gauge> :=
    [BroadcastIn, UnicastIn, MulticastIn, DiscardsIn, OctetsIn,
     BroadcastOut, UnicastOut, MulticastOut, DiscardsOut, OctetsOut]

  function Name(g: Gauge): string {
    match g
    case BroadcastIn => "broadcast_in"
    case UnicastIn => "unicast_in"
    case MulticastIn => "multicast_in"
    case DiscardsIn => "discards_in"
    case OctetsIn => "octets_in"
    case BroadcastOut => "broadcast_out"
    case UnicastOut => "unicast_out"
    case MulticastOut => "multicast_out"
    case DiscardsOut => "discards_out"
    case OctetsOut => "octets_out"
  }

  function Help(g: Gauge): string {
    match g
    case BroadcastIn => "Inbound Broadcast Packets on the interface"
    case UnicastIn => "Inbound Unicast Packets on the interface"
    case MulticastIn => "Inbound Multicast Packets on the interface"
    case DiscardsIn => "Inbound Discards on the interface"
    case OctetsIn => "Inbound Octets on the interface"
    case BroadcastOut => "Outbound Broadcast Packets on the interface"
    case UnicastOut => "Outbound Unicast Packets on the interface"
    case MulticastOut => "Outbound Multicast Packets on the interface"
    case DiscardsOut => "Outbound Discards on the interface"
    case OctetsOut => "Outbound Octets on the interface"
  }

  /** The options each gauge is created with. */
  function OptsOf(g: Gauge): (o: GaugeOpts)
    ensures o.namespace == Opts.Namespace && o.subsystem == Subsystem && o.name == Name(g)
  {
    Opts.MakeSubsystemOptsFactory(Subsystem)(Name(g), Help(g))
  }

  /** The gauge a metric name belongs to, if any. */
  function Named(name: string): Option<Gauge> {
    if name == "broadcast_in" then Some(BroadcastIn)
    else if name == "unicast_in" then Some(UnicastIn)
    else if name == "multicast_in" then Some(MulticastIn)
    else if name == "discards_in" then Some(DiscardsIn)
    else if name == "octets_in" then Some(OctetsIn)
    else if name == "broadcast_out" then Some(BroadcastOut)
    else if name == "unicast_out" then Some(UnicastOut)
    else if name == "multicast_out" then Some(MulticastOut)
    else if name == "discards_out" then Some(DiscardsOut)
    else if name == "octets_out" then Some(OctetsOut)
    else None
  }

  /** Each gauge's name leads back to it. */
  lemma {:induction false} NameRoundTrip(g: Gauge)
    ensures Named(Name(g)) == Some(g)
  {
    match g
    case BroadcastIn =>
    case UnicastIn =>
    case MulticastIn =>
    case DiscardsIn =>
    case OctetsIn =>
    case BroadcastOut =>
    case UnicastOut =>
    case MulticastOut =>
    case DiscardsOut =>
    case OctetsOut =>
  }

  /** Distinct gauges are distinct descriptors, so a gauge stands for its options. */
  lemma {:induction false} OptsInjective(a: Gauge, b: Gauge)
    requires OptsOf(a) == OptsOf(b)
    ensures a == b
  {
    NameRoundTrip(a);
    NameRoundTrip(b);
  }

  /** A split port such as a QSFP+ lane reports as "Ethernet49/1", so every
      series is labelled with the base name and the part. */
  const IfLabels: seq<string> := ["interface", "part"]

  /** `AllGauges` names every gauge once. */
  lemma {:induction false} GaugeLists()
    ensures forall g :: g in AllGauges
    ensures forall i, j :: 0 <= i < j < |AllGauges| ==> AllGauges[i] != AllGauges[j]
  {
    forall g ensures g in AllGauges {
      match g
      case BroadcastIn => assert AllGauges[0] == g;
      case UnicastIn => assert AllGauges[1] == g;
      case MulticastIn => assert AllGauges[2] == g;
      case DiscardsIn => assert AllGauges[3] == g;
      case OctetsIn => assert AllGauges[4] == g;
      case BroadcastOut => assert AllGauges[5] == g;
      case UnicastOut => assert AllGauges[6] == g;
      case MulticastOut => assert AllGauges[7] == g;
      case DiscardsOut => assert AllGauges[8] == g;
      case OctetsOut => assert AllGauges[9] == g;
    }
  }

  /** The vectors `Register` creates: all ten, with the schema ["interface", "part"]. */
  function Created(): (g: Gauges<Gauge>)
    ensures Fresh(g)
    ensures forall c :: c in g
    ensures forall c :: c in g ==> g[c].labelNames == IfLabels
  {
    GaugeLists();
    map c | c in AllGauges :: NewGaugeVec(IfLabels)
  }

  /** `Register`: every vector it creates is registered. */
  function Register(r: Registry<Gauge>): (r': Registry<Gauge>)
    requires forall c :: c !in r.registered
    ensures forall c :: c in r'.registered
  {
    GaugeLists();
    MustRegister(r, AllGauges)
  }

  /** The (interface, part) labels of an interface name: the first two
      '/'-separated segments, the part defaulting to "1" when there is no '/'. */
  function SplitName(name: string): (r: (string, string))
    ensures '/' !in r.0 && '/' !in r.1
    ensures '/' !in name ==> r == (name, "1")
    ensures '/' in name ==> |r.0| < |name| && name[..|r.0|] == r.0 && name[|r.0|] == '/'
  {
    var nameParts := GoStrings.Split(name, '/');
    GoStrings.SplitFirst(name, '/');
    var ifName := nameParts[0];
    var ifPart := if |nameParts| > 1 then nameParts[1] else "1";
    (ifName, ifPart)
  }

  /** The (interface, part) tuple an interface's series are set at. */
  function IfaceTuple(name: string): (t: Tuple)
    ensures |t| == |IfLabels|
    ensures t[0] == SplitName(name).0 && t[1] == SplitName(name).1
    ensures '/' !in name ==> t == [name, "1"]
  {
    [SplitName(name).0, SplitName(name).1]
  }

  /** The counter each gauge carries. */
  function Counter(i: Interface, g: Gauge): real {
    match g
    case BroadcastIn => i.inBroadcastPkts as real
    case UnicastIn => i.inUcastPkts as real
    case MulticastIn => i.inMulticastPkts as real
    case DiscardsIn => i.inDiscards as real
    case OctetsIn => i.inOctets as real
    case BroadcastOut => i.outBroadcastPkts as real
    case UnicastOut => i.outUcastPkts as real
    case MulticastOut => i.outMulticastPkts as real
    case DiscardsOut => i.outDiscards as real
    case OctetsOut => i.outOctets as real
  }

  /** The value each gauge takes for one interface. */
  function Counters(i: Interface): (values: map<Gauge, real>)
    ensures forall c :: c in values && values[c] == Counter(i, c)
  {
    GaugeLists();
    map c | c in AllGauges :: Counter(i, c)
  }

  /** One iteration of `UpdateMetrics`: all ten gauges at the interface's tuple. */
  function IfaceWrites(e: (string, Interface)): (ws: seq<Write<Gauge>>)
    ensures AllFit(Created(), ws)
    ensures Tuples(ws) == {IfaceTuple(e.0)}
  {
    var ws := [Write(IfaceTuple(e.0), Counters(e.1))];
    assert ws[0] in ws;
    ws
  }

  /** `UpdateMetrics`, visiting the interfaces in `order`. */
  function Updates(s: Snapshot, order: seq<string>): (ws: seq<Write<Gauge>>)
    requires Enumerates(order, s.interfaces.Keys)
    ensures AllFit(Created(), ws)
  {
    var items := Entries(s.interfaces, order);
    EachFits(Created(), items, IfaceWrites);
    Each(items, IfaceWrites)
  }

  /** Every vector after one update. */
  function Written(s: Snapshot, order: seq<string>): (g: Gauges<Gauge>)
    requires Enumerates(order, s.interfaces.Keys)
    ensures g.Keys == Created().Keys
  {
    Apply(Created(), Updates(s, order))
  }

  /** The series one request exposes for this collector: all ten vectors. */
  function Publish(s: Snapshot, order: seq<string>): (exposed: Gauges<Gauge>)
    requires Enumerates(order, s.interfaces.Keys)
    ensures forall c :: c in exposed && exposed[c] == Written(s, order)[c]
  {
    Gather(Register(NewRegistry()), Written(s, order))
  }

  // ---------------------------------------------------------------------
  // Name decomposition

  lemma {:induction false} SplitNoSlash(name: string)
    requires '/' !in name
    ensures SplitName(name) == (name, "1")
  {
  }

  /** "X/Y" decomposes to (X, Y). */
  lemma {:induction false} SplitOneSlash(x: string, y: string)
    requires '/' !in x && '/' !in y
    ensures SplitName(x + "/" + y) == (x, y)
  {
    assert GoStrings.Join([x, y], '/') == x + "/" + y;
    GoStrings.SplitJoin([x, y], '/');
  }

  /** Only the first two segments count: "A/B/C" decomposes to (A, B). */
  lemma {:induction false} SplitManySlashes(x: string, y: string, z: string)
    requires '/' !in x && '/' !in y
    ensures SplitName(x + "/" + y + "/" + z) == (x, y)
  {
    var rest := GoStrings.Split(z, '/');
    var parts := [x, y] + rest;
    assert GoStrings.Join(parts[2..], '/') == z by { assert parts[2..] == rest; }
    assert GoStrings.Join(parts[1..], '/') == y + "/" + z by { assert parts[1..][1..] == parts[2..]; }
    assert GoStrings.Join(parts, '/') == x + "/" + y + "/" + z;
    GoStrings.SplitJoin(parts, '/');
  }

  /** A trailing slash leaves an empty part. */
  lemma {:induction false} SplitTrailingSlash(x: string)
    requires '/' !in x
    ensures SplitName(x + "/") == (x, "")
  {
    SplitOneSlash(x, "");
    assert x + "/" + "" == x + "/";
  }

  lemma {:induction false} SplitExamples()
    ensures SplitName("Ethernet49/1") == ("Ethernet49", "1")
    ensures SplitName("Ethernet6") == ("Ethernet6", "1")
    ensures SplitName("Ethernet49/") == ("Ethernet49", "")
    ensures SplitName("A/B/C") == ("A", "B")
  {
    SplitOneSlash("Ethernet49", "1");
    assert "Ethernet49" + "/" + "1" == "Ethernet49/1";
    SplitTrailingSlash("Ethernet49");
    assert "Ethernet49" + "/" == "Ethernet49/";
    SplitManySlashes("A", "B", "C");
    assert "A" + "/" + "B" + "/" + "C" == "A/B/C";
  }

  /** Decomposition is not injective: "Ethernet49" and "Ethernet49/1" both
      label their series ("Ethernet49", "1"). */
  lemma {:induction false} SplitAliases()
    ensures "Ethernet49" != "Ethernet49/1"
    ensures IfaceTuple("Ethernet49") == IfaceTuple("Ethernet49/1")
  {
    SplitExamples();
  }

  // ---------------------------------------------------------------------
  // Published series

  /** No other interface name decomposes to the same tuple as `name`. */
  ghost predicate UniqueTuple(s: Snapshot, name: string) {
    forall other :: other in s.interfaces && other != name ==> IfaceTuple(other) != IfaceTuple(name)
  }

  /** Every gauge holds exactly the series written by the last interface
      that decomposes to each tuple; other tuples are absent. */
  lemma {:induction false} SeriesAreLastWrites(s: Snapshot, order: seq<string>, o: Gauge, t: Tuple)
    requires Enumerates(order, s.interfaces.Keys)
    ensures Lookup(Publish(s, order)[o], t) == Last(Updates(s, order), o, t)
  {
    assert Lookup(Created()[o], t) == None;
  }

  /** The update's last write to an unshared tuple is its interface's counter. */
  lemma {:induction false} LastCounters(s: Snapshot, order: seq<string>, name: string, o: Gauge)
    requires Enumerates(order, s.interfaces.Keys)
    requires name in s.interfaces && UniqueTuple(s, name)
    ensures Last(Updates(s, order), o, IfaceTuple(name)) == Some(Counter(s.interfaces[name], o))
  {
    var m, t := s.interfaces, IfaceTuple(name);
    var items := Entries(m, order);
    var e := (name, m[name]);
    EntriesOfEnumeration(m, order);
    forall k | k in items && k != e ensures Last(IfaceWrites(k), o, t) == None {
      assert k.0 != name;
    }
    LastEachUnique(items, IfaceWrites, e, o, t);
  }

  /** An interface whose tuple no other interface shares gets all ten
      counters at its tuple: broadcast_in holds its inbound broadcast count,
      octets_out its outbound octets, and so on (see `Counter`). */
  lemma {:induction false} PublishedCounters(s: Snapshot, order: seq<string>, name: string, c: Gauge)
    requires Enumerates(order, s.interfaces.Keys)
    requires name in s.interfaces && UniqueTuple(s, name)
    ensures Lookup(Publish(s, order)[c], IfaceTuple(name)) == Some(Counter(s.interfaces[name], c))
  {
    LastCounters(s, order, name, c);
    SeriesAreLastWrites(s, order, c, IfaceTuple(name));
  }

  /** Only tuples of interfaces in the snapshot carry series. */
  lemma {:induction false} SeriesOnlyForInterfaces(s: Snapshot, order: seq<string>, o: Gauge, t: Tuple)
    requires Enumerates(order, s.interfaces.Keys)
    requires forall name :: name in s.interfaces ==> IfaceTuple(name) != t
    ensures t !in Publish(s, order)[o].series
  {
    var items := Entries(s.interfaces, order);
    EntriesOfEnumeration(s.interfaces, order);
    LastEachNone(items, IfaceWrites, o, t);
    SeriesAreLastWrites(s, order, o, t);
  }

  /** Distinct interface names decompose to distinct tuples. */
  ghost predicate DistinctTuples(s: Snapshot) {
    forall a, b :: a in s.interfaces && b in s.interfaces && a != b ==> IfaceTuple(a) != IfaceTuple(b)
  }

  /** Under `DistinctTuples`, both orders write the same last value to every series. */
  lemma {:induction false} LastWritesOrderIndependent(s: Snapshot, order1: seq<string>, order2: seq<string>)
    requires Enumerates(order1, s.interfaces.Keys) && Enumerates(order2, s.interfaces.Keys)
    requires DistinctTuples(s)
    ensures forall o, t :: Last(Updates(s, order1), o, t) == Last(Updates(s, order2), o, t)
  {
    var m := s.interfaces;
    var items1, items2 := Entries(m, order1), Entries(m, order2);
    EntriesOfEnumeration(m, order1);
    EntriesOfEnumeration(m, order2);
    forall k1, k2 | k1 in items1 && k2 in items1 && k1 != k2
      ensures Tuples(IfaceWrites(k1)) !! Tuples(IfaceWrites(k2))
    {
      assert IfaceTuple(k1.0) != IfaceTuple(k2.0);
    }
    EachOrderIndependent(items1, items2, IfaceWrites);
  }

  /** When distinct interface names decompose to distinct tuples, the exposed
      series do not depend on the order the map is visited in. */
  lemma {:induction false} OrderIndependent(s: Snapshot, order1: seq<string>, order2: seq<string>)
    requires Enumerates(order1, s.interfaces.Keys) && Enumerates(order2, s.interfaces.Keys)
    requires DistinctTuples(s)
    ensures Publish(s, order1) == Publish(s, order2)
  {
    LastWritesOrderIndependent(s, order1, order2);
    ApplyDeterminedByLast(Created(), Updates(s, order1), Updates(s, order2));
  }
}
