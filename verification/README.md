# arista_exporter in Dafny

A model of the core of `arista_exporter`, a Prometheus exporter for Arista
switches. For each scrape, the exporter chooses collectors from a
comma-separated list (`getCollectorMap`). Each chosen collector does three
things:

- it registers its gauge vectors in a fresh registry (`Register`);
- it names the eAPI command whose JSON reply it decodes (`GetCmd`);
- it turns the decoded reply into series (`UpdateMetrics`).

Every gauge's options are built by `MakeSubsystemOptsFactory` under the
namespace `arista`.

## Modules

- `Metrics` (metrics.dfy) is the client-library behaviour the collectors rely on:
  - A gauge vector is a label schema plus a map from label tuples to values.
  - `WithLabelValues(...).Set(x)` is a `Write`.
  - A run of writes is applied in order, so a series holds the `Last` write to it.
  - `MustRegister` adds vectors to a registry and refuses duplicates.
  - `Gather` exposes only the registered vectors.
  - The lemmas relate the final series to the last write: appending writes, writes that do not touch a series, loops whose iterations write disjoint tuples (order independence).
- `Opts` (opts.dfy) holds `Namespace` and `MakeSubsystemOptsFactory`.
- `GoMaps` (gomaps.dfy): Go ranges over a map in an unspecified order. The model makes that order an explicit argument, a sequence that lists every key once (`Enumerates`). Every property about a map loop is proved for all such orders.
- `GoStrings` (gostrings.dfy) models the standard-library functions the core calls:
  - `strings.Split` on one separator and `strings.TrimSpace` over Go's white-space set;
  - `strconv.Itoa` and `strconv.FormatBool`;
  - inverses or uniqueness results for each.
- `Version`, `Power`, `Interfaces`, `Cooling`, `Temperature`, `Bgp` are the six collectors. Each has:
  - the decoded reply as a `Snapshot`;
  - its gauges as an enumeration, with name, help and label schema;
  - `Created` (the vectors `Register` builds), `Register`, and `Updates` (the writes `UpdateMetrics` performs, in source order);
  - `Written` (every vector after the update) and `Publish` (what the registry exposes).
- `Exporter` (collector.dfy) holds the catalogue, `GetCmd` for each collector, `getCollectorMap`, and the fact that the six collectors never register the same descriptor. `Register` and `UpdateMetrics` are modelled in each collector's own module.

### Behaviour the code has and the model keeps

- **Power** sets the meta series to 1 on both branches of its `State == "ok"` test; the model exposes that value (see Findings). It also writes capacity but never registers it, so capacity is never exposed. The reply is a map of pointers; a `null` entry makes the loop dereference nil and the request fails (`Power.Deref`).
- **Cooling** creates six vectors and writes all of them, but registers only `fan_max_speed`.
- **Interfaces** splits a name at `/`. With no `/` the part is `"1"`; otherwise it is the text between the first and second `/`. So `Ethernet49` and `Ethernet49/1` share a series, and which one wins depends on map order.
- **Temperature**: a power-supply sensor overwrites a system sensor with the same name and description.

## Model

| member | source | states |
|---|---|---|
| Opts.MakeSubsystemOptsFactory | collectors/collectors.go:7-16 | every options value the factory builds carries namespace `arista`, the factory's subsystem, and the name and help it was given |
| Opts.FactoryIdentity | collectors/collectors.go:5-16 | two built options are equal exactly when subsystem, name and help all agree |
| Metrics.NewGaugeVec | collectors/version.go:34-42 | a new vector keeps the schema it was given and holds no series |
| Metrics.SetSeries | collectors/version.go:49-53 | setting a tuple makes it read back the value and leaves every other tuple unchanged |
| Metrics.ApplyWrite | collectors/interfaces.go:85-95 | one write changes exactly the series it addresses, in the gauges it sets |
| Metrics.Apply | collectors/interfaces.go:75-98 | after a run of writes every series reads its last write, or its previous value when nothing wrote it; schemas are kept |
| Metrics.NewRegistry | main.go:65 | a fresh registry holds nothing |
| Metrics.MustRegister | collectors/version.go:44 | registering adds exactly the given vectors; none may already be registered, and the count grows by their number |
| Metrics.Gather | main.go:91 | the registry exposes exactly the registered vectors that exist, as they are now |
| Metrics.LastOfThree | collectors/cooling.go:64-66 | of three consecutive writes, the latest one that touches a series decides it |
| Metrics.LastAppend | collectors/cooling.go:68-82 | for two runs of writes, the second run's last write wins and the first run's counts only if the second is silent |
| Metrics.LastNotAt | collectors/cooling.go:70-81 | a series that no write addresses stays unset |
| Metrics.LastOnlyFromTuples | collectors/interfaces.go:76-97 | a tuple outside the set a run addresses stays unset |
| Metrics.EachAppend | collectors/interfaces.go:76-97 | the writes of a loop over a concatenation are those of the two loops, in order |
| Metrics.LastUntouched | collectors/cooling.go:68-82 | writes that never set a gauge leave all its series unset |
| Metrics.LastAfterNone | collectors/cooling.go:63-83 | runs that leave a series alone keep what came before |
| Metrics.LastSkipsUntouched | collectors/cooling.go:63-83 | writes to other gauges do not change what the header left in a gauge |
| Metrics.AllFitThree | collectors/cooling.go:64-66 | three writes that each fit the schemas fit together |
| Metrics.LastEachNone | collectors/power.go:71-89 | if no iteration of a loop writes a series, the loop leaves it unset |
| Metrics.LastEachUnique | collectors/power.go:71-89 | if only one iteration writes a series, that iteration's last write decides it |
| Metrics.EachOrderIndependent | collectors/power.go:71-89 | when iterations write disjoint tuples, any two orders of the same items leave the same last write on every series |
| Metrics.SameSeries | collectors/interfaces.go:85-95 | two vectors with one schema that agree on every lookup are equal |
| Metrics.OneSeries | collectors/version.go:49-53 | a gauge written at one tuple alone ends with exactly that series |
| Metrics.PublishedOne | collectors/version.go:44-53 | such a registered gauge is exposed with exactly that series |
| Metrics.ApplyDeterminedByLast | collectors/interfaces.go:75-98 | two runs that agree on every last write produce the same vectors |
| Metrics.EachFits | collectors/interfaces.go:76-97 | a loop whose iterations fit the schemas fits them as a whole |
| GoMaps.Entries | collectors/power.go:71 | a range loop visits the (key, value) pairs of the map in the given order |
| GoMaps.EntriesOfEnumeration | collectors/bgp.go:88-89 | whatever the order, the loop visits exactly the pairs of the map |
| GoStrings.IndexOf | collector.go:36 | the position found holds the separator and nothing before it does |
| GoStrings.Split | collector.go:36 | `strings.Split`: at least one piece, no piece holds the separator, and the pieces joined with it give back the input |
| GoStrings.SplitCons | collector.go:36 | a split cuts at the first separator and continues with the rest |
| GoStrings.SplitJoin | collector.go:36 | splitting the join of separator-free pieces gives back the pieces |
| GoStrings.SplitFirst | collectors/interfaces.go:77-78 | the first piece is the longest separator-free prefix, and there is one piece exactly when the separator is absent |
| GoStrings.SkipSpace | collector.go:37 | the forward scan stops at the first character that is not white space |
| GoStrings.BackSpace | collector.go:37 | the backward scan stops just after the last character that is not white space |
| GoStrings.TrimSpace | collector.go:37 | `strings.TrimSpace`: the result begins and ends with non-space and sits in the input with only white space around it |
| GoStrings.TrimUnique | collector.go:37 | any tight infix with only white space around it is the trimmed string, so trimming is determined |
| GoStrings.TrimSpaceIdempotent | collector.go:37 | trimming twice equals trimming once |
| GoStrings.DigitChar | collectors/power.go:74 | a digit value maps to a decimal digit character |
| GoStrings.NatToString | collectors/power.go:74 | a natural's decimal text is non-empty digits without a leading zero |
| GoStrings.Itoa | collectors/power.go:74 | `strconv.Itoa`: digits, preceded by `-` exactly for negative numbers |
| GoStrings.ParseNatToString | collectors/power.go:74 | parsing a natural's decimal text gives the natural back |
| GoStrings.ItoaRoundTrip | collectors/power.go:74 | parsing `Itoa(n)` gives back `n` |
| GoStrings.ItoaInjective | collectors/power.go:74 | distinct capacities get distinct capacity labels |
| GoStrings.FormatBool | collectors/power.go:74 | `strconv.FormatBool`: "true" exactly for true and "false" exactly for false |
| Version.OptsOf | collectors/version.go:30-42 | each gauge's options are in namespace `arista`, subsystem `meta`, under the gauge's name |
| Version.NameRoundTrip | collectors/version.go:34-42 | each gauge's metric name leads back to that gauge |
| Version.OptsInjective | collectors/version.go:34-42 | distinct gauges have distinct options |
| Version.GaugeLists | collectors/version.go:44 | the registered list holds every gauge, once |
| Version.Created | collectors/version.go:32-43 | `Register` creates every gauge, empty, with its label schema |
| Version.Register | collectors/version.go:44 | all four vectors are registered |
| Version.MetaTuple | collectors/version.go:49 | the meta tuple gives, in label order, the model name, system MAC address, software version (under `eosVersion`), serial number, architecture and hardware revision |
| Version.Updates | collectors/version.go:47-54 | every write fits the created schemas |
| Version.Publish | collectors/version.go:44-54 | all four vectors are exposed |
| Version.SeriesTuple | collectors/version.go:49-53 | each gauge's tuple matches its schema, and the meta gauge's tuple carries those six fields in label order |
| Version.LastUpdates | collectors/version.go:47-54 | each gauge gets exactly one series, at its tuple, holding its value: meta 1, then uptime, memory total and memory free |
| Version.PublishedSeries | collectors/version.go:44-54 | each exposed vector holds exactly that one series |
| Version.InternalVersionIgnored | collectors/version.go:8 | decoded fields outside the labels and values (here `internalVersion`) do not change what is exposed |
| Power.OptsOf | collectors/power.go:46-64 | each gauge's options are in namespace `arista`, subsystem `power_supply`, under the gauge's name |
| Power.NameRoundTrip | collectors/power.go:50-64 | each gauge's metric name leads back to that gauge |
| Power.OptsInjective | collectors/power.go:50-64 | distinct gauges have distinct options |
| Power.GaugeLists | collectors/power.go:67 | the registered list is every gauge but capacity, once each; the readings are every gauge but meta |
| Power.Created | collectors/power.go:48-64 | all six vectors are created empty with their schemas |
| Power.Register | collectors/power.go:67 | exactly five vectors are registered; capacity is not |
| Power.MetaValueAsWritten | collectors/power.go:73-77 | as written, the meta value is 1 whether or not the state is "ok" |
| Power.MetaValue | collectors/power.go:50 | the meta value the help text describes is 1 exactly when the state is "ok" and 0 exactly when it is not |
| Power.MetaIgnoresState | collectors/power.go:73-77 | for every supply that is not ok, the value as written is 1 where the help text calls for 0 |
| Power.MetaTuple | collectors/power.go:74-76 | the meta tuple is id, model, capacity in decimal (which parses back to the capacity) and managed, which is "true" exactly when managed and "false" exactly when not |
| Power.Readings | collectors/power.go:80-88 | the (psuId) tuple receives capacity, uptime, input current, output current and power, each from its own field |
| Power.PsuWrites | collectors/power.go:72-88 | one iteration addresses exactly the meta tuple and (psuId) |
| Power.Updates | collectors/power.go:70-90 | every write of the loop fits the created schemas |
| Power.Written | collectors/power.go:70-90 | the update keeps the set of vectors |
| Power.Publish | collectors/power.go:67-90 | the exposed vectors are exactly the five registered ones, holding what the update wrote |
| Power.OtherSupply | collectors/power.go:74-88 | a supply writes no tuple that starts with another supply's id |
| Power.OnlyOwnTuples | collectors/power.go:71-89 | a tuple that starts with `id` ends with what supply `id` wrote, in any visiting order |
| Power.PublishedReadings | collectors/power.go:83-88 | each supply's uptime, currents and power are exposed at (psuId) |
| Power.PublishedMeta | collectors/power.go:73-77 | each supply's meta series is exposed with value 1, whatever its state |
| Power.PublishedMetaMisreports | collectors/power.go:50-77 | for a supply that is not ok, the exposed meta value differs from the one the help text describes |
| Power.CapacityHidden | collectors/power.go:54-80 | capacity is written for each supply but never exposed |
| Power.SeriesOnlyForSupplies | collectors/power.go:71-89 | no exposed series has a first label that is not a supply id |
| Power.DistinctSuppliesDisjoint | collectors/power.go:71-89 | two supplies never write a common tuple |
| Power.Deref | collectors/power.go:70-73 | following the reply's pointers fails exactly when some entry is nil; otherwise it gives a snapshot with the same ids and the supplies they point to |
| Power.Pointers | collectors/power.go:10 | a snapshot read as a reply has the same ids, each pointing to its supply |
| Power.DerefPointers | collectors/power.go:10 | following the pointers of a reply without nil entries gives back the snapshot |
| Power.OrderIndependent | collectors/power.go:71-89 | what is exposed does not depend on the map's iteration order |
| Interfaces.OptsOf | collectors/interfaces.go:41-69 | each gauge's options are in namespace `arista`, subsystem `interface`, under the gauge's name |
| Interfaces.NameRoundTrip | collectors/interfaces.go:49-69 | each gauge's metric name leads back to that gauge |
| Interfaces.OptsInjective | collectors/interfaces.go:49-69 | distinct gauges have distinct options |
| Interfaces.GaugeLists | collectors/interfaces.go:72 | the registered list holds every gauge, once |
| Interfaces.Created | collectors/interfaces.go:43-69 | all ten vectors are created empty with labels (interface, part) |
| Interfaces.Register | collectors/interfaces.go:72 | all ten vectors are registered |
| Interfaces.SplitName | collectors/interfaces.go:77-82 | the name part is the text before the first `/`, the part is "1" without a `/`, and neither holds a `/` |
| Interfaces.IfaceTuple | collectors/interfaces.go:77-85 | the tuple is the name part then the part, as the split gives them; a name without `/` gives (name, "1") |
| Interfaces.Counters | collectors/interfaces.go:85-95 | one interface sets all ten gauges, each from its own counter |
| Interfaces.IfaceWrites | collectors/interfaces.go:84-95 | one iteration addresses exactly the interface's tuple |
| Interfaces.Updates | collectors/interfaces.go:75-98 | every write of the loop fits the schemas |
| Interfaces.Written | collectors/interfaces.go:75-98 | the update keeps the set of vectors |
| Interfaces.Publish | collectors/interfaces.go:72-98 | every vector is exposed, holding what the update wrote |
| Interfaces.SplitNoSlash | collectors/interfaces.go:79 | a name without `/` becomes (name, "1") |
| Interfaces.SplitOneSlash | collectors/interfaces.go:77-82 | "x/y" becomes (x, y) |
| Interfaces.SplitManySlashes | collectors/interfaces.go:77-82 | "x/y/z" becomes (x, y); the rest is dropped |
| Interfaces.SplitTrailingSlash | collectors/interfaces.go:77-82 | "x/" becomes (x, "") |
| Interfaces.SplitExamples | collectors/interfaces.go:44-46 | "Ethernet49/1" gives (Ethernet49, 1) and "Ethernet6" gives (Ethernet6, 1) |
| Interfaces.SplitAliases | collectors/interfaces.go:77-82 | two distinct names, "Ethernet49" and "Ethernet49/1", share one tuple |
| Interfaces.SeriesAreLastWrites | collectors/interfaces.go:75-98 | each exposed series holds the last write to its tuple, and a tuple no one wrote is absent |
| Interfaces.LastCounters | collectors/interfaces.go:76-95 | the loop's last write to an unshared tuple is that interface's counters |
| Interfaces.PublishedCounters | collectors/interfaces.go:76-95 | an interface whose tuple no other name shares is exposed with its ten counters |
| Interfaces.SeriesOnlyForInterfaces | collectors/interfaces.go:76-97 | only tuples of interface names carry series |
| Interfaces.LastWritesOrderIndependent | collectors/interfaces.go:76 | when names have distinct tuples, every last write is the same in any iteration order |
| Interfaces.OrderIndependent | collectors/interfaces.go:76 | then what is exposed does not depend on the iteration order |
| Cooling.FanGaugeList | collectors/cooling.go:68-70 | the per-fan list holds exactly the three per-fan gauges |
| Cooling.OptsOf | collectors/cooling.go:48-59 | each gauge's options are in namespace `arista`, subsystem `cooling`, under the gauge's name |
| Cooling.NameRoundTrip | collectors/cooling.go:51-59 | each gauge's metric name leads back to that gauge |
| Cooling.OptsInjective | collectors/cooling.go:51-59 | distinct gauges have distinct options |
| Cooling.GaugeLists | collectors/cooling.go:51-59 | the created list holds every gauge |
| Cooling.Created | collectors/cooling.go:50-59 | all six vectors are created empty with their schemas |
| Cooling.Register | collectors/cooling.go:60 | only `fan_max_speed` is registered |
| Cooling.MetaTuple | collectors/cooling.go:64 | the meta tuple is mode, shutdown flag ("true" exactly when set, "false" exactly when not) and status |
| Cooling.FanValues | collectors/cooling.go:70-72 | a fan sets exactly the three per-fan gauges, to its maximum, configured and actual speed |
| Cooling.FanWrite | collectors/cooling.go:70-72 | one fan writes its speeds at (tray, fan label) |
| Cooling.FanWrites | collectors/cooling.go:68-74 | the fan loop writes only per-fan gauges, at tuples tagged with its tray |
| Cooling.Updates | collectors/cooling.go:63-83 | every write of the update fits the schemas |
| Cooling.Header | collectors/cooling.go:64-66 | the three writes before the loops fit the schemas and never use a two-label tuple |
| Cooling.MetaWrite | collectors/cooling.go:64 | the meta write fits and uses three labels |
| Cooling.UnlabeledWrite | collectors/cooling.go:65-66 | the ambient and override writes fit and use the empty tuple |
| Cooling.Written | collectors/cooling.go:63-83 | the update keeps the set of vectors |
| Cooling.Publish | collectors/cooling.go:60-83 | exactly `fan_max_speed` is exposed, holding what the update wrote |
| Cooling.LastFanWrites | collectors/cooling.go:69-73 | the fan loop leaves at (tray, label) the speeds of the last fan with that label, and nothing if there is none |
| Cooling.OtherTray | collectors/cooling.go:68-82 | the loop of one tray never writes the other tray's tuples |
| Cooling.LastWrites | collectors/cooling.go:63-83 | after the update, "psu" and "fanslot" series show the last power-supply or fan-tray fan with that label |
| Cooling.PublishedMaxSpeed | collectors/cooling.go:60-80 | the exposed maximum speeds are those of the last fan of each tray kind and label |
| Cooling.WrittenIsLast | collectors/cooling.go:63-83 | every written series holds its last write |
| Cooling.ExposedTuples | collectors/cooling.go:60-80 | every exposed series is tagged "psu" or "fanslot" |
| Cooling.OffTray | collectors/cooling.go:68-82 | writes all tagged with one tray leave other tuples alone |
| Cooling.UntaggedNone | collectors/cooling.go:63-83 | on a tuple outside both trays only the header's writes count |
| Cooling.FansLeaveOthers | collectors/cooling.go:68-82 | the fan loops leave the meta, ambient and override gauges alone |
| Cooling.HeaderTuple | collectors/cooling.go:64-66 | the header writes each of its gauges at a tuple of its schema |
| Cooling.HiddenGauges | collectors/cooling.go:60-66 | the meta, ambient and override gauges end the update holding the header's values but are never exposed |
| Cooling.HeaderLast | collectors/cooling.go:64-66 | the header leaves each of its gauges holding its value: meta 1, ambient temperature, override speed |
| Cooling.HeaderNoFan | collectors/cooling.go:64-66 | the header writes no per-fan gauge |
| Temperature.OptsOf | collectors/temperature.go:46-55 | each gauge's options are in namespace `arista`, subsystem `temperature`, under the gauge's name |
| Temperature.NameRoundTrip | collectors/temperature.go:50-55 | each gauge's metric name leads back to that gauge |
| Temperature.OptsInjective | collectors/temperature.go:50-55 | distinct gauges have distinct options |
| Temperature.GaugeLists | collectors/temperature.go:57 | the registered list holds every gauge, once |
| Temperature.Created | collectors/temperature.go:48-55 | all six vectors are created empty with labels (sensorName, sensorDescription) |
| Temperature.Register | collectors/temperature.go:57 | all six vectors are registered |
| Temperature.SensorTuple | collectors/temperature.go:62 | a sensor's tuple is its name and description |
| Temperature.SensorWrite | collectors/temperature.go:62-68 | a sensor sets all six gauges at its tuple, each from its own field |
| Temperature.SensorWrites | collectors/temperature.go:61-69 | the loop writes each sensor in order |
| Temperature.Updates | collectors/temperature.go:60-82 | every write of the update fits the schemas |
| Temperature.Written | collectors/temperature.go:60-82 | the update keeps the set of vectors |
| Temperature.Publish | collectors/temperature.go:57-82 | every vector is exposed, holding what the update wrote |
| Temperature.LastSensorWrites | collectors/temperature.go:61-69 | a sensor loop leaves at a tuple the readings of the last sensor with that name and description |
| Temperature.LastSensorAppend | collectors/temperature.go:61-81 | across the system loop and the power-supply loop, the later loop's sensor wins |
| Temperature.PublishedReadings | collectors/temperature.go:60-82 | each exposed series shows the last sensor, system then power-supply, with its tuple |
| Temperature.PowerSupplyWins | collectors/temperature.go:71-81 | a power-supply sensor overrides a system sensor with the same name and description |
| Temperature.LastSensorFound | collectors/temperature.go:61-81 | a tuple has a last sensor exactly when some sensor has that tuple, and it is one of them |
| Temperature.SeriesOnlyForSensors | collectors/temperature.go:60-82 | a tuple carries a series exactly when some sensor has it |
| Temperature.UnreadFieldsIgnored | collectors/temperature.go:6-7 | the shutdown flag and system status do not change what is exposed |
| Bgp.OptsOf | collectors/bgp.go:50-84 | each gauge's options are in namespace `arista`, subsystem `bgp`, under the gauge's name |
| Bgp.OptsInjective | collectors/bgp.go:57-84 | distinct gauges have distinct options |
| Bgp.NameRoundTrip | collectors/bgp.go:57-84 | each gauge's metric name leads back to that gauge |
| Bgp.GaugeLists | collectors/bgp.go:56-86 | the registration order holds every gauge, once |
| Bgp.Created | collectors/bgp.go:49-85 | all ten vectors are created empty with labels (peer, description, asn, vrf, router_id) |
| Bgp.RegisterInTurn | collectors/bgp.go:56-86 | registering one vector after another adds exactly those vectors |
| Bgp.Register | collectors/bgp.go:56-86 | all ten vectors are registered |
| Bgp.EncodePeerState | collectors/bgp.go:90-106 | the state number is 1 to 6 for Idle, Connect, Active, OpenSent, OpenConfirm and Established, and 0 exactly for any other text |
| Bgp.PeerStateRoundTrip | collectors/bgp.go:91-103 | each of the six state names encodes to its own number |
| Bgp.MaintenanceValue | collectors/bgp.go:117-121 | maintenance is 1 exactly when the peer is under maintenance, else 0 |
| Bgp.VrfVisits | collectors/bgp.go:89 | the inner loop visits the VRF's peers in the given order, each with the VRF's name and router id |
| Bgp.PeerTuple | collectors/bgp.go:107-121 | the tuple is peer address, description, asn, VRF name and router id |
| Bgp.PeerValues | collectors/bgp.go:107-121 | a peer sets all ten gauges, each from its own field |
| Bgp.PeerWrites | collectors/bgp.go:107-121 | one peer addresses exactly its tuple |
| Bgp.Updates | collectors/bgp.go:87-124 | every write of the nested loop fits the schemas |
| Bgp.Written | collectors/bgp.go:87-124 | the update keeps the set of vectors |
| Bgp.Publish | collectors/bgp.go:56-124 | every vector is exposed, holding what the update wrote |
| Bgp.VrfVisitsMembers | collectors/bgp.go:89 | the inner loop visits exactly the peers of its VRF |
| Bgp.VisitsMembers | collectors/bgp.go:88-89 | the nested loop visits exactly the peers of the VRFs it goes through |
| Bgp.AllPeersVisited | collectors/bgp.go:88-89 | over all VRFs, the nested loop visits exactly the snapshot's peers |
| Bgp.TupleNamesPeer | collectors/bgp.go:107 | two peers of the snapshot with one tuple are the same peer |
| Bgp.SeriesAreLastWrites | collectors/bgp.go:87-124 | each exposed series holds the last write to its tuple |
| Bgp.LastPeer | collectors/bgp.go:88-121 | the nested loop's last write to a peer's tuple is that peer's values |
| Bgp.PublishedPeer | collectors/bgp.go:88-121 | every peer of every VRF is exposed at its tuple with its ten values |
| Bgp.SeriesOnlyForPeers | collectors/bgp.go:88-122 | only tuples of peers carry series |
| Bgp.OrderIndependent | collectors/bgp.go:88-89 | what is exposed does not depend on the order of either map loop |
| Bgp.DistinctVisitsDisjoint | collectors/bgp.go:88-89 | two distinct peers never write a common tuple |
| Exporter.CatalogNames | collector.go:18-25 | each collector is filed under its name, and each catalogue name names its collector |
| Exporter.GetCmd | collector.go:12 | each collector's command, from its own `GetCmd` (for example collectors/power.go:42-44), is a `show` command |
| Exporter.CommandsDistinct | collector.go:11-15 | no two collectors ask the switch the same command |
| Exporter.SubsystemsDistinct | collectors/collectors.go:7-16 | no two collectors use the same subsystem |
| Metrics.Descriptors | collectors/version.go:44 | the descriptors of a list of gauges are the options of its gauges and nothing else |
| Exporter.Registered | main.go:68-70 | a collector registers only options under `arista` and its own subsystem |
| Exporter.RegisteredDisjoint | main.go:65-70 | two collectors never register the same descriptor, so any selection shares one registry without a collision |
| Exporter.Warning | collector.go:41 | the warning is "Unknown collector: " followed by the name |
| Exporter.Unknown | collector.go:38-42 | the names warned about are exactly those not in the catalogue |
| Exporter.Warnings | collector.go:41 | one warning per unknown name, in order |
| Exporter.Select | collector.go:36-43 | the loop selects exactly the listed names in the catalogue, each mapped to its collector, and warns once per unknown name |
| Exporter.Pieces | collector.go:36-37 | the pieces are the comma-separated parts, each trimmed |
| Exporter.GetCollectorMap | collector.go:17-46 | "" selects all six without a warning; otherwise exactly the catalogued trimmed pieces are selected and the rest warned about |
| Exporter.SelectionIgnoresOrder | collector.go:36-43 | order and repetition in the list do not change the selection |
| Exporter.EveryPieceAccounted | collector.go:38-42 | each piece is either selected or warned about: the warned and the selected pieces together are the listed pieces, repeats included |
| Exporter.UnknownCounts | collector.go:40-41 | each uncatalogued name is warned about exactly as often as it is listed, a catalogued one never |
| Exporter.KnownCounts | collector.go:38-39 | each catalogued name is matched exactly as often as it is listed, an uncatalogued one never |
| Exporter.Known | collector.go:38-39 | the selected pieces are exactly the catalogued ones |
| Exporter.WarningsNamePieces | collector.go:41 | each warning names a listed piece that is not in the catalogue |
| Exporter.PiecesOfJoin | collector.go:36-37 | a comma-joined list falls apart into its elements, each trimmed |
| Exporter.SelectionExample | collector.go:36-43 | "version", "bgp", "nope" selects version and bgp and warns "Unknown collector: nope" |
| Exporter.TrimExample | collector.go:37 | a name without surrounding white space trims to itself |
| Exporter.EmptyPieceWarned | collector.go:36-42 | for any non-empty list, each element that trims to nothing is warned about as the empty name |
| Exporter.UnknownSecond | collector.go:38-42 | of a catalogued name followed by an unknown one, only the second is warned about |
| Exporter.TrailingCommaPieces | collector.go:36-37 | "version," falls apart into "version" and an empty piece |
| Exporter.TrailingCommaExample | collector.go:36-43 | "version," selects only version and warns once, about the empty name |

## Left out

- HTTP serving, the eAPI connection and the command calls in main.go are I/O and are not modelled. The collector chosen by `getCollectorMap` is a fresh zero-valued instance, so the model records only its kind.
- JSON decoding is not modelled. Each collector starts from its decoded `Snapshot`; fields the collector never reads are kept in the datatype but play no part. Untyped JSON values (a BGP peer's `lldpNeighbors`) are kept as their JSON text.
- The registry's real identity of a descriptor (fully-qualified name plus label names) is not modelled. Within one collector the gauge enumeration stands for its options, which the `OptsInjective` lemmas justify. Across collectors, `Exporter.RegisteredDisjoint` shows the subsystems keep descriptors apart.
- `MustRegister` panics on a duplicate; the model makes no duplicates a precondition of `Register` instead. It models one scrape, where each collector registers once in a fresh registry.
- `float64` rounding is not modelled. Numbers are reals, and `float64(n)` of an integer is `n as real`, exact even above 2^53.
- Logging is not modelled as a side effect. The warnings of `getCollectorMap` are returned as a list of strings.
- Concurrency between scrapes is not modelled. Each scrape has its own registry and collector instances.
- The exposition format of the HTTP handler is not modelled. `Gather` returns the registered vectors themselves.
- `UpdateMetrics` is modelled in each collector's module (`Version.Publish`, `Power.Publish` and so on). No function dispatches it over the six collectors, because one function that calls all six `Publish` definitions is beyond what the solver can check within its budget. `GetCmd` and the registered descriptors are dispatched by `Exporter.Kind`.
- `Power.Publish` exposes the meta value as the code writes it (1 for every supply). The value the help text describes, `Power.MetaValue`, is proved about one supply but is not carried through a second copy of the update; `Power.PublishedMetaMisreports` states the gap for what is exposed.
- `Power.Publish` takes the snapshot that `Power.Deref` produces. A nil entry is modelled only as `Deref` failing; the panic itself and its recovery by the HTTP server are not modelled.
- Go strings are byte strings; the model's strings are sequences of Unicode scalar values. `strings.TrimSpace` decodes UTF-8 and reads an invalid byte as U+FFFD, which is not white space, so for every string the model can represent the result is the same. Byte strings that are not valid UTF-8 are not modelled.
- `strings.TrimSpace`'s fast path for ASCII is not modelled separately. The model uses the set of characters Go's `unicode.IsSpace` accepts, so both paths give the same result.

## Findings

| source | as written | input that shows it | evidently intended | confidence | as-written member | corrected member |
|---|---|---|---|---|---|---|
| collectors/power.go:73-77 | both branches of `psu.State == "ok"` set the meta gauge to 1 | any supply whose state is not "ok", such as "powerLoss" | the help text at collectors/power.go:50 says the value is 1 when the state is ok and 0 otherwise | high; not executed | Power.MetaValueAsWritten, which Power.PsuWrites uses (shown by Power.MetaIgnoresState and, for what is exposed, Power.PublishedMetaMisreports) | Power.MetaValue (1 exactly when ok, 0 exactly otherwise) |
