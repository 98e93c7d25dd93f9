/** The BGP collector: ten gauges per peer of every VRF, labelled with the
    peer's address, description and AS number and the VRF's name and router id. */
module Bgp {
  import opened Metrics
  import opened GoMaps
  import Opts

  /** One peer in the reply to `show ipv6 bgp summary`. The LLDP neighbours
      are untyped JSON values; each is kept as its JSON text. */
  datatype Peer = Peer(
    description: string,
    msgSent: int,
    msgReceived: int,
    prefixReceived: int,
    prefixAccepted: int,
    prefixInBest: int,
    prefixInBestEcmp: int,
    inMsgQueue: int,
    outMsgQueue: int,
    peerState: string,
    upDownTime: real,
    asn: string,
    underMaintenance: bool,
    version: int,
    lldpNeighbors: seq<string>,
    peerStateIdleReason: string)

  /** One VRF and its peers, keyed by peer address. */
  datatype Vrf = Vrf(routerId: string, asn: string, peers: map<string, Peer>, vrf: string)

  /** The decoded reply: the VRFs keyed by name. */
  datatype Snapshot = Snapshot(vrfs: map<string, Vrf>)

  const Command: string := "show ipv6 bgp summary"

  const Subsystem: string := "bgp"

  /** The ten gauges, in the order `Register` creates them. */
  datatype Gauge =
    | PrefixReceived | PrefixAccepted | PrefixInBest | PrefixInBestEcmp
    | MsgSent | MsgReceived | PeerState
    | InMsgQueue | OutMsgQueue | UnderMaintenance

  const AllGauges: seq<Gauge> :=
    [PrefixReceived, PrefixAccepted, PrefixInBest, PrefixInBestEcmp,
     MsgSent, MsgReceived, PeerState, InMsgQueue, OutMsgQueue, UnderMaintenance]

  function Name(g: Gauge): string {
    match g
    case PrefixReceived => "prefix_received"
    case PrefixAccepted => "prefix_accepted"
    case PrefixInBest => "prefix_in_best"
    case PrefixInBestEcmp => "prefix_in_best_ecmp"
    case MsgSent => "msg_sent"
    case MsgReceived => "msg_received"
    case PeerState => "peer_state"
    case InMsgQueue => "in_msg_queue"
    case OutMsgQueue => "out_msg_queue"
    case UnderMaintenance => "under_maintenance"
  }

  function Help(g: Gauge): string {
    match g
    case PrefixReceived => "Number of prefixes received from BGP peer"
    case PrefixAccepted => "Number of prefixes accepted from BGP peer"
    case PrefixInBest => "Number of prefixes in best path from BGP peer"
    case PrefixInBestEcmp => "Number of prefixes in best ECMP path from BGP peer"
    case MsgSent => "Number of BGP messages sent to peer"
    case MsgReceived => "Number of BGP messages received from peer"
    case PeerState => "BGP peer state: 1=Idle, 2=Connect, 3=Active, 4=OpenSent, 5=OpenConfirm, 6=Established"
    case InMsgQueue => "Number of BGP messages in input queue"
    case OutMsgQueue => "Number of BGP messages in output queue"
    case UnderMaintenance => "Whether the peer is under maintenance (1 if true, 0 if false)"
  }

  /** The schema every gauge shares. */
  const PeerLabels: seq<string> := ["peer", "description", "asn", "vrf", "router_id"]

  /** The options each gauge is created with. */
  function OptsOf(g: Gauge): (o: GaugeOpts)
    ensures o.namespace == Opts.Namespace && o.subsystem == Subsystem && o.name == Name(g)
  {
    Opts.MakeSubsystemOptsFactory(Subsystem)(Name(g), Help(g))
  }

  /** Distinct gauges are distinct descriptors, so a gauge stands for its options. */
  lemma {:induction false} OptsInjective(a: Gauge, b: Gauge)
    requires OptsOf(a) == OptsOf(b)
    ensures a == b
  {
    NameRoundTrip(a);
    NameRoundTrip(b);
  }

  /** The gauge a metric name belongs to, if any. */
  function Named(name: string): Option<Gauge> {
    if name == "prefix_received" then Some(PrefixReceived)
    else if name == "prefix_accepted" then Some(PrefixAccepted)
    else if name == "prefix_in_best" then Some(PrefixInBest)
    else if name == "prefix_in_best_ecmp" then Some(PrefixInBestEcmp)
    else if name == "msg_sent" then Some(MsgSent)
    else if name == "msg_received" then Some(MsgReceived)
    else if name == "peer_state" then Some(PeerState)
    else if name == "in_msg_queue" then Some(InMsgQueue)
    else if name == "out_msg_queue" then Some(OutMsgQueue)
    else if name == "under_maintenance" then Some(UnderMaintenance)
    else None
  }

  /** Each gauge's name leads back to it. */
  lemma {:induction false} NameRoundTrip(g: Gauge)
    ensures Named(Name(g)) == Some(g)
  {
    match g
    case PrefixReceived =>
    case PrefixAccepted =>
    case PrefixInBest =>
    case PrefixInBestEcmp =>
    case MsgSent =>
    case MsgReceived =>
    case PeerState =>
    case InMsgQueue =>
    case OutMsgQueue =>
    case UnderMaintenance =>
  }

  /** `AllGauges` names every gauge once. */
  lemma {:induction false} GaugeLists()
    ensures forall g :: g in AllGauges
    ensures forall i, j :: 0 <= i < j < |AllGauges| ==> AllGauges[i] != AllGauges[j]
  {
    forall g ensures g in AllGauges {
      match g
      case PrefixReceived => assert AllGauges[0] == g;
      case PrefixAccepted => assert AllGauges[1] == g;
      case PrefixInBest => assert AllGauges[2] == g;
      case PrefixInBestEcmp => assert AllGauges[3] == g;
      case MsgSent => assert AllGauges[4] == g;
      case MsgReceived => assert AllGauges[5] == g;
      case PeerState => assert AllGauges[6] == g;
      case InMsgQueue => assert AllGauges[7] == g;
      case OutMsgQueue => assert AllGauges[8] == g;
      case UnderMaintenance => assert AllGauges[9] == g;
    }
  }

  /** The vectors `Register` creates: ten, all with the peer schema. */
  function Created(): (g: Gauges<Gauge>)
    ensures Fresh(g)
    ensures forall c :: c in g
    ensures forall c :: c in g ==> g[c].labelNames == PeerLabels
  {
    GaugeLists();
    map c | c in AllGauges :: NewGaugeVec(PeerLabels)
  }

  /** One `MustRegister` call per gauge, in the order of `gs`. */
  function RegisterInTurn(r: Registry<Gauge>, gs: seq<Gauge>): (r': Registry<Gauge>)
    requires forall i :: 0 <= i < |gs| ==> gs[i] !in r.registered
    requires forall i, j :: 0 <= i < j < |gs| ==> gs[i] != gs[j]
    ensures forall c :: c in r'.registered <==> c in r.registered || c in gs
    decreases |gs|
  {
    if gs == [] then r
    else
      var r1 := MustRegister(r, [gs[0]]);
      assert forall i :: 0 <= i < |gs[1..]| ==> gs[1..][i] == gs[i + 1];
      RegisterInTurn(r1, gs[1..])
  }

  /** `Register`: the ten vectors are created and registered one by one. */
  function Register(r: Registry<Gauge>): (r': Registry<Gauge>)
    requires forall c :: c !in r.registered
    ensures forall c :: c in r'.registered
  {
    GaugeLists();
    RegisterInTurn(r, AllGauges)
  }

  // ---------------------------------------------------------------------
  // Encoded values

  /** The six session states in the order the peer_state help text numbers them. */
  const StateNames: seq<string> := ["Idle", "Connect", "Active", "OpenSent", "OpenConfirm", "Established"]

  /** The state switch: a known state to its number, anything else to 0. */
  function EncodePeerState(state: string): (n: int)
    ensures 0 <= n <= 6
    ensures n == 0 <==> state !in StateNames
    ensures n != 0 ==> StateNames[n - 1] == state
  {
    if state == "Idle" then 1
    else if state == "Connect" then 2
    else if state == "Active" then 3
    else if state == "OpenSent" then 4
    else if state == "OpenConfirm" then 5
    else if state == "Established" then 6
    else 0
  }

  /** Reading the help text's table back: state number `n` names the state
      that encodes to `n`. */
  lemma {:induction false} PeerStateRoundTrip(n: int)
    requires 1 <= n <= 6
    ensures EncodePeerState(StateNames[n - 1]) == n
  {
  }

  /** The maintenance flag as a number. */
  function MaintenanceValue(b: bool): (x: real)
    ensures x == 1.0 <==> b
    ensures x == 0.0 <==> !b
  {
    if b then 1.0 else 0.0
  }

  /** The value each gauge takes for one peer. */
  function PeerValue(p: Peer, g: Gauge): real {
    match g
    case PrefixReceived => p.prefixReceived as real
    case PrefixAccepted => p.prefixAccepted as real
    case PrefixInBest => p.prefixInBest as real
    case PrefixInBestEcmp => p.prefixInBestEcmp as real
    case MsgSent => p.msgSent as real
    case MsgReceived => p.msgReceived as real
    case PeerState => EncodePeerState(p.peerState) as real
    case InMsgQueue => p.inMsgQueue as real
    case OutMsgQueue => p.outMsgQueue as real
    case UnderMaintenance => MaintenanceValue(p.underMaintenance)
  }

  // ---------------------------------------------------------------------
  // The nested loop

  /** One pass of the inner loop body: peer `addr` of VRF `vrfName`. */
  datatype Visit = Visit(vrfName: string, routerId: string, addr: string, peer: Peer)

  /** `v` describes a peer of the snapshot faithfully. */
  ghost predicate IsVisit(s: Snapshot, v: Visit) {
    && v.vrfName in s.vrfs
    && v.addr in s.vrfs[v.vrfName].peers
    && v.routerId == s.vrfs[v.vrfName].routerId
    && v.peer == s.vrfs[v.vrfName].peers[v.addr]
  }

  /** For each VRF, the order its peers are visited in lists every peer once. */
  ghost predicate PeerOrders(s: Snapshot, peerOrders: map<string, seq<string>>) {
    forall name :: name in s.vrfs ==> name in peerOrders && Enumerates(peerOrders[name], s.vrfs[name].peers.Keys)
  }

  /** The inner loop over one VRF's peers, in `order`. */
  function VrfVisits(name: string, vrf: Vrf, order: seq<string>): (vs: seq<Visit>)
    requires forall i :: 0 <= i < |order| ==> order[i] in vrf.peers
    ensures |vs| == |order|
    ensures forall i :: 0 <= i < |vs| ==> vs[i] == Visit(name, vrf.routerId, order[i], vrf.peers[order[i]])
  {
    seq(|order|, i requires 0 <= i < |order| => Visit(name, vrf.routerId, order[i], vrf.peers[order[i]]))
  }

  /** Both loops: the VRFs in `vrfOrder`, each VRF's peers in its own order. */
  function Visits(s: Snapshot, vrfOrder: seq<string>, peerOrders: map<string, seq<string>>): seq<Visit>
    requires PeerOrders(s, peerOrders)
    requires forall i :: 0 <= i < |vrfOrder| ==> vrfOrder[i] in s.vrfs
    decreases |vrfOrder|
  {
    if vrfOrder == [] then []
    else
      var name := vrfOrder[|vrfOrder| - 1];
      Visits(s, vrfOrder[..|vrfOrder| - 1], peerOrders) + VrfVisits(name, s.vrfs[name], peerOrders[name])
  }

  /** The labels a visit writes at, in schema order. */
  function PeerTuple(v: Visit): (t: Tuple)
    ensures |t| == |PeerLabels|
    ensures t[0] == v.addr && t[1] == v.peer.description && t[2] == v.peer.asn
    ensures t[3] == v.vrfName && t[4] == v.routerId
  {
    [v.addr, v.peer.description, v.peer.asn, v.vrfName, v.routerId]
  }

  /** The ten values of one peer. */
  function PeerValues(p: Peer): (values: map<Gauge, real>)
    ensures forall c :: c in values
    ensures forall c :: c in values ==> values[c] == PeerValue(p, c)
  {
    GaugeLists();
    map c | c in AllGauges :: PeerValue(p, c)
  }

  /** The inner loop body: all ten gauges at the visit's tuple. */
  function PeerWrites(v: Visit): (ws: seq<Write<Gauge>>)
    ensures AllFit(Created(), ws)
    ensures Tuples(ws) == {PeerTuple(v)}
  {
    var ws := [Write(PeerTuple(v), PeerValues(v.peer))];
    assert ws[0] in ws;
    ws
  }

  /** `UpdateMetrics` for the given iteration orders. */
  function Updates(s: Snapshot, vrfOrder: seq<string>, peerOrders: map<string, seq<string>>): (ws: seq<Write<Gauge>>)
    requires Enumerates(vrfOrder, s.vrfs.Keys) && PeerOrders(s, peerOrders)
    ensures AllFit(Created(), ws)
  {
    var items := Visits(s, vrfOrder, peerOrders);
    EachFits(Created(), items, PeerWrites);
    Each(items, PeerWrites)
  }

  /** Every vector after one update. */
  function Written(s: Snapshot, vrfOrder: seq<string>, peerOrders: map<string, seq<string>>): (g: Gauges<Gauge>)
    requires Enumerates(vrfOrder, s.vrfs.Keys) && PeerOrders(s, peerOrders)
    ensures g.Keys == Created().Keys
  {
    Apply(Created(), Updates(s, vrfOrder, peerOrders))
  }

  /** The series one request exposes: all ten vectors. */
  function Publish(s: Snapshot, vrfOrder: seq<string>, peerOrders: map<string, seq<string>>): (exposed: Gauges<Gauge>)
    requires Enumerates(vrfOrder, s.vrfs.Keys) && PeerOrders(s, peerOrders)
    ensures forall c :: c in exposed && exposed[c] == Written(s, vrfOrder, peerOrders)[c]
  {
    Gather(Register(NewRegistry()), Written(s, vrfOrder, peerOrders))
  }

  // ---------------------------------------------------------------------
  // Which peers are visited

  /** The inner loop visits exactly the peers of its VRF. */
  lemma {:induction false} VrfVisitsMembers(s: Snapshot, name: string, order: seq<string>, v: Visit)
    requires name in s.vrfs && Enumerates(order, s.vrfs[name].peers.Keys)
    ensures v in VrfVisits(name, s.vrfs[name], order) <==> v.vrfName == name && IsVisit(s, v)
  {
    var vs := VrfVisits(name, s.vrfs[name], order);
    if v.vrfName == name && IsVisit(s, v) {
      var i :| 0 <= i < |order| && order[i] == v.addr;
      assert vs[i] == v;
    }
  }

  /** The nested loop visits the peers of exactly the VRFs it goes through. */
  lemma {:induction false} VisitsMembers(s: Snapshot, vrfOrder: seq<string>, peerOrders: map<string, seq<string>>, v: Visit)
    requires PeerOrders(s, peerOrders)
    requires forall i :: 0 <= i < |vrfOrder| ==> vrfOrder[i] in s.vrfs
    ensures v in Visits(s, vrfOrder, peerOrders) <==> v.vrfName in vrfOrder && IsVisit(s, v)
    decreases |vrfOrder|
  {
    if vrfOrder != [] {
      var n := |vrfOrder| - 1;
      var name := vrfOrder[n];
      VisitsMembers(s, vrfOrder[..n], peerOrders, v);
      VrfVisitsMembers(s, name, peerOrders[name], v);
      assert vrfOrder == vrfOrder[..n] + [name];
    }
  }

  /** Whatever the orders, the nested loop visits every peer of every VRF and nothing else. */
  lemma {:induction false} AllPeersVisited(s: Snapshot, vrfOrder: seq<string>, peerOrders: map<string, seq<string>>, v: Visit)
    requires Enumerates(vrfOrder, s.vrfs.Keys) && PeerOrders(s, peerOrders)
    ensures v in Visits(s, vrfOrder, peerOrders) <==> IsVisit(s, v)
  {
    VisitsMembers(s, vrfOrder, peerOrders, v);
  }

  /** A tuple names its peer: the address and the VRF name are labels, and
      within one snapshot they determine the rest. */
  lemma {:induction false} TupleNamesPeer(s: Snapshot, v1: Visit, v2: Visit)
    requires IsVisit(s, v1) && IsVisit(s, v2)
    requires PeerTuple(v1) == PeerTuple(v2)
    ensures v1 == v2
  {
    assert v1.addr == PeerTuple(v1)[0] && v1.vrfName == PeerTuple(v1)[3];
  }

  // ---------------------------------------------------------------------
  // Published series

  lemma {:induction false} SeriesAreLastWrites(s: Snapshot, vrfOrder: seq<string>, peerOrders: map<string, seq<string>>, o: Gauge, t: Tuple)
    requires Enumerates(vrfOrder, s.vrfs.Keys) && PeerOrders(s, peerOrders)
    ensures Lookup(Publish(s, vrfOrder, peerOrders)[o], t) == Last(Updates(s, vrfOrder, peerOrders), o, t)
  {
    assert Lookup(Created()[o], t) == None;
  }

  /** Every peer of every VRF gets its own series in each gauge, holding its
      own value; a peer address configured in two VRFs gets two series. */
  lemma {:induction false} PublishedPeer(s: Snapshot, vrfOrder: seq<string>, peerOrders: map<string, seq<string>>, v: Visit, c: Gauge)
    requires Enumerates(vrfOrder, s.vrfs.Keys) && PeerOrders(s, peerOrders)
    requires IsVisit(s, v)
    ensures Lookup(Publish(s, vrfOrder, peerOrders)[c], PeerTuple(v)) == Some(PeerValue(v.peer, c))
  {
    LastPeer(s, vrfOrder, peerOrders, v, c);
    SeriesAreLastWrites(s, vrfOrder, peerOrders, c, PeerTuple(v));
  }

  /** The update's last write to a peer's tuple is that peer's value. */
  lemma {:induction false} LastPeer(s: Snapshot, vrfOrder: seq<string>, peerOrders: map<string, seq<string>>, v: Visit, c: Gauge)
    requires Enumerates(vrfOrder, s.vrfs.Keys) && PeerOrders(s, peerOrders)
    requires IsVisit(s, v)
    ensures Last(Updates(s, vrfOrder, peerOrders), c, PeerTuple(v)) == Some(PeerValue(v.peer, c))
  {
    var items := Visits(s, vrfOrder, peerOrders);
    var t := PeerTuple(v);
    AllPeersVisited(s, vrfOrder, peerOrders, v);
    forall k | k in items && k != v ensures Last(PeerWrites(k), c, t) == None {
      AllPeersVisited(s, vrfOrder, peerOrders, k);
      if PeerTuple(k) == t {
        TupleNamesPeer(s, k, v);
      }
      LastOnlyFromTuples(PeerWrites(k), c, t);
    }
    LastEachUnique(items, PeerWrites, v, c, t);
    assert PeerWrites(v)[..0] == [];
  }

  /** Series exist only at the tuples of the snapshot's peers. */
  lemma {:induction false} SeriesOnlyForPeers(s: Snapshot, vrfOrder: seq<string>, peerOrders: map<string, seq<string>>, c: Gauge, t: Tuple)
    requires Enumerates(vrfOrder, s.vrfs.Keys) && PeerOrders(s, peerOrders)
    requires forall v :: IsVisit(s, v) ==> PeerTuple(v) != t
    ensures t !in Publish(s, vrfOrder, peerOrders)[c].series
  {
    var items := Visits(s, vrfOrder, peerOrders);
    forall k | k in items ensures Last(PeerWrites(k), c, t) == None {
      AllPeersVisited(s, vrfOrder, peerOrders, k);
      LastOnlyFromTuples(PeerWrites(k), c, t);
    }
    LastEachNone(items, PeerWrites, c, t);
    SeriesAreLastWrites(s, vrfOrder, peerOrders, c, t);
  }

  /** Go's map order does not matter: any two pairs of iteration orders
      expose the same series. */
  lemma {:induction false} OrderIndependent(s: Snapshot, vo1: seq<string>, po1: map<string, seq<string>>, vo2: seq<string>, po2: map<string, seq<string>>)
    requires Enumerates(vo1, s.vrfs.Keys) && PeerOrders(s, po1)
    requires Enumerates(vo2, s.vrfs.Keys) && PeerOrders(s, po2)
    ensures Publish(s, vo1, po1) == Publish(s, vo2, po2)
  {
    var items1, items2 := Visits(s, vo1, po1), Visits(s, vo2, po2);
    forall k ensures k in items1 <==> k in items2 {
      AllPeersVisited(s, vo1, po1, k);
      AllPeersVisited(s, vo2, po2, k);
    }
    forall k1, k2 | k1 in items1 && k2 in items1 && k1 != k2 ensures Tuples(PeerWrites(k1)) !! Tuples(PeerWrites(k2)) {
      DistinctVisitsDisjoint(s, vo1, po1, k1, k2);
    }
    EachOrderIndependent(items1, items2, PeerWrites);
    ApplyDeterminedByLast(Created(), Updates(s, vo1, po1), Updates(s, vo2, po2));
  }

  /** Two distinct visits of one loop write disjoint tuples. */
  lemma {:induction false} DistinctVisitsDisjoint(s: Snapshot, vrfOrder: seq<string>, peerOrders: map<string, seq<string>>, k1: Visit, k2: Visit)
    requires Enumerates(vrfOrder, s.vrfs.Keys) && PeerOrders(s, peerOrders)
    requires k1 in Visits(s, vrfOrder, peerOrders) && k2 in Visits(s, vrfOrder, peerOrders) && k1 != k2
    ensures Tuples(PeerWrites(k1)) !! Tuples(PeerWrites(k2))
  {
    AllPeersVisited(s, vrfOrder, peerOrders, k1);
    AllPeersVisited(s, vrfOrder, peerOrders, k2);
    if PeerTuple(k1) == PeerTuple(k2) {
      TupleNamesPeer(s, k1, k2);
    }
  }
}
