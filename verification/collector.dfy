/** The exporter's catalogue of collectors and the selection of the ones a
    request enables. */
module Exporter {
  import opened Metrics
  import GoStrings
  import Opts
  import Version
  import Power
  import Interfaces
  import Cooling
  import Temperature
  import Bgp

  /** The six collectors. A selected collector is a fresh zero-valued
      instance of its kind, so the kind is all a selection records. */
  datatype Kind = VersionKind | PowerKind | InterfacesKind | CoolingKind | TemperatureKind | BgpKind

  /** The names the catalogue files each collector under. */
  function KindName(k: Kind): string {
    match k
    case VersionKind => "version"
    case PowerKind => "power"
    case InterfacesKind => "interfaces"
    case CoolingKind => "cooling"
    case TemperatureKind => "temperature"
    case BgpKind => "bgp"
  }

  /** All collectors, by name. */
  const Catalog: map<string, Kind> := map[
    "version" := VersionKind,
    "power" := PowerKind,
    "interfaces" := InterfacesKind,
    "cooling" := CoolingKind,
    "temperature" := TemperatureKind,
    "bgp" := BgpKind]

  /** The catalogue and `KindName` are inverse: every kind is filed under its
      name, and every name in the catalogue names its kind. */
  lemma {:induction false} CatalogNames()
    ensures forall k :: KindName(k) in Catalog && Catalog[KindName(k)] == k
    ensures forall n :: n in Catalog ==> KindName(Catalog[n]) == n
  {
    forall k ensures KindName(k) in Catalog && Catalog[KindName(k)] == k {
      match k
      case VersionKind =>
      case PowerKind =>
      case InterfacesKind =>
      case CoolingKind =>
      case TemperatureKind =>
      case BgpKind =>
    }
  }

  /** `GetCmd`: the command whose reply the collector decodes; every one is a
      `show` command, so a scrape only reads the switch's state. */
  function GetCmd(k: Kind): (cmd: string)
    ensures |cmd| > 5 && cmd[..5] == "show "
  {
    match k
    case VersionKind => Version.Command
    case PowerKind => Power.Command
    case InterfacesKind => Interfaces.Command
    case CoolingKind => Cooling.Command
    case TemperatureKind => Temperature.Command
    case BgpKind => Bgp.Command
  }

  /** No two collectors ask the switch the same command. */
  lemma {:induction false} CommandsDistinct(a: Kind, b: Kind)
    requires GetCmd(a) == GetCmd(b)
    ensures a == b
  {
    match a
    case VersionKind => assert |GetCmd(a)| == 12;
    case PowerKind => assert |GetCmd(a)| == 29;
    case InterfacesKind => assert GetCmd(a)[5] == 'i';
    case CoolingKind => assert GetCmd(a)[17] == 'c';
    case TemperatureKind => assert GetCmd(a)[17] == 't';
    case BgpKind => assert GetCmd(a)[5] == 'i' && GetCmd(a)[6] == 'p';
  }

  /** The subsystem each collector's options carry. */
  function Subsystem(k: Kind): string {
    match k
    case VersionKind => Version.Subsystem
    case PowerKind => Power.Subsystem
    case InterfacesKind => Interfaces.Subsystem
    case CoolingKind => Cooling.Subsystem
    case TemperatureKind => Temperature.Subsystem
    case BgpKind => Bgp.Subsystem
  }

  lemma {:induction false} SubsystemsDistinct(a: Kind, b: Kind)
    requires Subsystem(a) == Subsystem(b)
    ensures a == b
  {
    match a
    case VersionKind => assert Subsystem(a)[0] == 'm';
    case PowerKind => assert Subsystem(a)[0] == 'p';
    case InterfacesKind => assert Subsystem(a)[0] == 'i';
    case CoolingKind => assert Subsystem(a)[0] == 'c';
    case TemperatureKind => assert Subsystem(a)[0] == 't';
    case BgpKind => assert Subsystem(a)[0] == 'b';
  }

  /** The options of the vectors each collector registers. */
  function Registered(k: Kind): (ds: set<GaugeOpts>)
    ensures forall o :: o in ds ==> o.namespace == Opts.Namespace && o.subsystem == Subsystem(k)
  {
    match k
    case VersionKind => Descriptors(Version.AllGauges, Version.OptsOf)
    case PowerKind => Descriptors(Power.RegisteredGauges, Power.OptsOf)
    case InterfacesKind => Descriptors(Interfaces.AllGauges, Interfaces.OptsOf)
    case CoolingKind => Descriptors([Cooling.FanMaxSpeed], Cooling.OptsOf)
    case TemperatureKind => Descriptors(Temperature.AllGauges, Temperature.OptsOf)
    case BgpKind => Descriptors(Bgp.AllGauges, Bgp.OptsOf)
  }

  /** Two collectors never register the same descriptor, so any selection
      of collectors can share one registry without a collision. */
  lemma {:induction false} RegisteredDisjoint(a: Kind, b: Kind)
    requires a != b
    ensures Registered(a) !! Registered(b)
  {
    if o :| o in Registered(a) && o in Registered(b) {
      SubsystemsDistinct(a, b);
    }
  }

  // ---------------------------------------------------------------------
  // getCollectorMap

  const WarningPrefix: string := "Unknown collector: "

  /** The warning logged for a name that is not in the catalogue. */
  function Warning(name: string): (w: string)
    ensures |w| == |WarningPrefix| + |name|
    ensures w[..|WarningPrefix|] == WarningPrefix && w[|WarningPrefix|..] == name
  {
    WarningPrefix + name
  }

  /** The names of `names` that are not in the catalogue, in order, repeats kept. */
  function Unknown(names: seq<string>): (u: seq<string>)
    ensures forall n :: n in u <==> n in names && n !in Catalog
    ensures |u| <= |names|
    decreases |names|
  {
    if names == [] then []
    else
      var n := names[|names| - 1];
      var prev := Unknown(names[..|names| - 1]);
      assert names == names[..|names| - 1] + [n];
      if n in Catalog then prev else prev + [n]
  }

  /** The warning for each name of `names`, in order. */
  function Warnings(names: seq<string>): (ws: seq<string>)
    ensures |ws| == |names|
    ensures forall i :: 0 <= i < |ws| ==> ws[i] == Warning(names[i])
  {
    seq(|names|, i requires 0 <= i < |names| => Warning(names[i]))
  }

  /** The loop over the enabled names: each catalogued name is selected, each
      other one is warned about. */
  function Select(names: seq<string>): (r: (map<string, Kind>, seq<string>))
    ensures forall n :: n in r.0 <==> n in names && n in Catalog
    ensures forall n :: n in r.0 ==> r.0[n] == Catalog[n]
    ensures r.1 == Warnings(Unknown(names))
    decreases |names|
  {
    if names == [] then (map[], [])
    else
      var n := names[|names| - 1];
      var prev := Select(names[..|names| - 1]);
      assert names == names[..|names| - 1] + [n];
      if n in Catalog then (prev.0[n := Catalog[n]], prev.1)
      else (prev.0, prev.1 + [Warning(n)])
  }

  /** The trimmed pieces of the comma-separated list. */
  function Pieces(enabled: string): (ps: seq<string>)
    ensures |ps| == |GoStrings.Split(enabled, ',')|
    ensures forall i :: 0 <= i < |ps| ==> ps[i] == GoStrings.TrimSpace(GoStrings.Split(enabled, ',')[i])
  {
    var parts := GoStrings.Split(enabled, ',');
    seq(|parts|, i requires 0 <= i < |parts| => GoStrings.TrimSpace(parts[i]))
  }

  /** `getCollectorMap`: the selected collectors by name, and the warnings
      logged on the way. The empty string enables all six. */
  function GetCollectorMap(enabled: string): (r: (map<string, Kind>, seq<string>))
    ensures enabled == "" ==> r.0 == Catalog && r.1 == []
    ensures forall n :: n in r.0 ==> n in Catalog && r.0[n] == Catalog[n]
    ensures enabled != "" ==> forall n :: n in r.0 <==> n in Pieces(enabled) && n in Catalog
    ensures enabled != "" ==> r.1 == Warnings(Unknown(Pieces(enabled)))
  {
    if enabled == "" then (Catalog, []) else Select(Pieces(enabled))
  }

  /** Order and repetition in the list do not change the selection. */
  lemma {:induction false} SelectionIgnoresOrder(a: seq<string>, b: seq<string>)
    requires forall n :: n in a <==> n in b
    ensures Select(a).0 == Select(b).0
  {
    var m1, m2 := Select(a).0, Select(b).0;
    assert m1.Keys == m2.Keys;
  }

  /** One warning per unknown piece, repeats included: the loop accounts for
      every piece exactly once. */
  lemma {:induction false} EveryPieceAccounted(names: seq<string>)
    ensures |Unknown(names)| + |Known(names)| == |names|
    ensures multiset(Unknown(names)) + multiset(Known(names)) == multiset(names)
    decreases |names|
  {
    if names != [] {
      var init := names[..|names| - 1];
      EveryPieceAccounted(init);
      assert names == init + [names[|names| - 1]];
    }
  }

  /** Each uncatalogued name is warned about as often as it is listed, and a
      catalogued one never. */
  lemma {:induction false} UnknownCounts(names: seq<string>)
    ensures forall n :: multiset(Unknown(names))[n] == if n in Catalog then 0 else multiset(names)[n]
    decreases |names|
  {
    if names != [] {
      var init := names[..|names| - 1];
      UnknownCounts(init);
      assert names == init + [names[|names| - 1]];
    }
  }

  /** Each catalogued name is kept as often as it is listed, and an
      uncatalogued one never. */
  lemma {:induction false} KnownCounts(names: seq<string>)
    ensures forall n :: multiset(Known(names))[n] == if n in Catalog then multiset(names)[n] else 0
    decreases |names|
  {
    if names != [] {
      var init := names[..|names| - 1];
      KnownCounts(init);
      assert names == init + [names[|names| - 1]];
    }
  }

  /** The catalogued pieces of `names`, in order, repeats kept. */
  function Known(names: seq<string>): (k: seq<string>)
    ensures forall n :: n in k <==> n in names && n in Catalog
    decreases |names|
  {
    if names == [] then []
    else
      var n := names[|names| - 1];
      var prev := Known(names[..|names| - 1]);
      assert names == names[..|names| - 1] + [n];
      if n in Catalog then prev + [n] else prev
  }

  /** The warnings name the unknown pieces: stripping the prefix gives them back. */
  lemma {:induction false} WarningsNamePieces(names: seq<string>, i: int)
    requires 0 <= i < |Select(names).1|
    ensures Select(names).1[i][|WarningPrefix|..] in names
    ensures Select(names).1[i][|WarningPrefix|..] !in Catalog
  {
    var u := Unknown(names);
    assert u[i] in u;
  }

  /** A comma-joined list falls apart into its elements, each trimmed. */
  lemma {:induction false} PiecesOfJoin(parts: seq<string>)
    requires |parts| >= 1
    requires forall i :: 0 <= i < |parts| ==> ',' !in parts[i]
    ensures |Pieces(GoStrings.Join(parts, ','))| == |parts|
    ensures forall i :: 0 <= i < |parts| ==> Pieces(GoStrings.Join(parts, ','))[i] == GoStrings.TrimSpace(parts[i])
  {
    GoStrings.SplitJoin(parts, ',');
  }

  /** Unknown names are warned about and kept out; known ones are selected. */
  lemma {:induction false} SelectionExample(names: seq<string>)
    requires names == ["version", "bgp", "nope"]
    ensures Select(names).0 == map["version" := VersionKind, "bgp" := BgpKind]
    ensures Select(names).1 == ["Unknown collector: nope"]
  {
    assert "version" in Catalog && "bgp" in Catalog && "nope" !in Catalog;
    assert names[..2] == ["version", "bgp"] && names[..2][..1] == ["version"] && ["version"][..0] == [];
    assert Unknown(["version"]) == [];
    assert Unknown(["version", "bgp"]) == [];
    assert Unknown(names) == ["nope"];
    var m := Select(names).0;
    assert m.Keys == {"version", "bgp"};
    assert Warnings(["nope"])[0] == WarningPrefix + "nope" == "Unknown collector: nope";
  }

  /** A name without surrounding space trims to itself. */
  lemma {:induction false} TrimExample(s: string)
    requires s != [] && !GoStrings.IsSpace(s[0]) && !GoStrings.IsSpace(s[|s| - 1])
    ensures GoStrings.TrimSpace(s) == s
  {
    assert s[0..0 + |s|] == s;
    assert GoStrings.TrimmedAt(s, 0, s);
    GoStrings.TrimUnique(s, 0, s);
  }

  /** An empty list element is not a collector name: wherever a trimmed
      piece is empty, a warning naming the empty string is logged. */
  lemma {:induction false} EmptyPieceWarned(enabled: string, i: int)
    requires enabled != "" && 0 <= i < |Pieces(enabled)| && Pieces(enabled)[i] == ""
    ensures Warning("") in GetCollectorMap(enabled).1
  {
    var ps := Pieces(enabled);
    assert "" !in Catalog;
    assert ps[i] in ps;
    var u := Unknown(ps);
    assert "" in u;
    var j :| 0 <= j < |u| && u[j] == "";
    assert Warnings(u)[j] == Warning("");
  }

  /** Of a catalogued name followed by an unknown one, only the second is unknown. */
  lemma {:induction false} UnknownSecond(a: string, b: string)
    requires a in Catalog && b !in Catalog
    ensures Unknown([a, b]) == [b]
  {
    var ps := [a, b];
    assert ps[..1] == [a] && [a][..0] == [];
  }

  /** "version," splits into the name and an empty piece. */
  lemma {:induction false} TrailingCommaPieces(enabled: string)
    requires enabled == "version,"
    ensures Pieces(enabled) == ["version", ""]
  {
    var v, e := "version", "";
    var parts := [v, e];
    assert GoStrings.Join(parts[1..], ',') == e;
    assert enabled == GoStrings.Join(parts, ',');
    PiecesOfJoin(parts);
    TrimExample(v);
  }

  /** A trailing comma selects the named collector and warns about the empty
      name after it. */
  lemma {:induction false} TrailingCommaExample(enabled: string)
    requires enabled == "version,"
    ensures GetCollectorMap(enabled).0 == map["version" := VersionKind]
    ensures GetCollectorMap(enabled).1 == [Warning("")]
  {
    var v, e := "version", "";
    TrailingCommaPieces(enabled);
    var ps := Pieces(enabled);
    assert v in Catalog && Catalog[v] == VersionKind by {
      CatalogNames();
      assert KindName(VersionKind) == v;
    }
    assert e !in Catalog;
    UnknownSecond(v, e);
    var m := GetCollectorMap(enabled).0;
    assert m.Keys == {v};
    assert m == map[v := VersionKind];
  }
}
