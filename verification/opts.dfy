/** Descriptor identity: every gauge of the exporter lives in the "arista"
    namespace under its collector's subsystem. */
module Opts {
  import opened Metrics

  const Namespace: string := "arista"

  /** `MakeSubsystemOptsFactory(subsystem)`: a factory of gauge options that
      fixes the namespace and the subsystem and takes name and help as given. */
  function MakeSubsystemOptsFactory(subsystem: string): (factory: (string, string) -> GaugeOpts)
    ensures forall name, help :: factory(name, help).namespace == Namespace
    ensures forall name, help :: factory(name, help).subsystem == subsystem
    ensures forall name, help :: factory(name, help).name == name && factory(name, help).help == help
  {
    (name, help) => GaugeOpts(Namespace, subsystem, name, help)
  }

  /** Two options from factories are the same descriptor exactly when
      subsystem, name and help agree. */
  lemma {:induction false} FactoryIdentity(s1: string, n1: string, h1: string, s2: string, n2: string, h2: string)
    ensures MakeSubsystemOptsFactory(s1)(n1, h1) == MakeSubsystemOptsFactory(s2)(n2, h2)
        <==> s1 == s2 && n1 == n2 && h1 == h2
  {
  }
}
