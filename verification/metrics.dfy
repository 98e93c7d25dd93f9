/** An abstract, request-scoped metrics registry: the part of the Prometheus
    client library the collectors rely on. A collector creates gauge vectors,
    registers some of them, and then sets values in them; only the vectors
    that were registered are exposed. */
module Metrics {

  datatype Option<T> = None | Some(value: T) {
    /** This value, or `other` when this one is None. */
    function Or(other: Option<T>): Option<T> {
      if Some? then this else other
    }
  }

  /** Options of a gauge vector; they identify the vector in the registry.
      Within the model a collector names its vectors by a key type `G` of its
      own, each key standing for the options it is created with. */
  datatype GaugeOpts = GaugeOpts(namespace: string, subsystem: string, name: string, help: string)

  /** The ordered label values that identify one series of a vector. */
  type Tuple = seq<string>

  /** A gauge vector: its label-name schema and the latest value of each series. */
  datatype GaugeVec = GaugeVec(labelNames: seq<string>, series: map<Tuple, real>)

  /** Every gauge vector a collector has created, keyed by its options. */
  type Gauges<G> = map<G, GaugeVec>

  /** One `WithLabelValues(labels...)` tuple and the value set at that tuple
      on each gauge listed in `values`. */
  datatype Write<G> = Write(labels: Tuple, values: map<G, real>)

  /** The set of vectors registered with a request's registry. */
  datatype Registry<G> = Registry(registered: set<G>)

  /** The current value of series `t` of `v`, if it has been set. */
  function Lookup(v: GaugeVec, t: Tuple): Option<real> {
    if t in v.series then Some(v.series[t]) else None
  }

  function NewGaugeVec(labelNames: seq<string>): (v: GaugeVec)
    ensures v.labelNames == labelNames
    ensures forall t :: Lookup(v, t) == None
  {
    GaugeVec(labelNames, map[])
  }

  /** A collection of vectors none of which holds a series yet. */
  ghost predicate Fresh<G(!new)>(g: Gauges<G>) {
    forall o, t :: o in g ==> Lookup(g[o], t) == None
  }

  /** `WithLabelValues(labels...).Set(x)`; the client library panics when the
      number of label values differs from the schema. */
  function SetSeries(v: GaugeVec, labels: Tuple, x: real): (v': GaugeVec)
    requires |labels| == |v.labelNames|
    ensures v'.labelNames == v.labelNames
    ensures Lookup(v', labels) == Some(x)
    ensures forall t :: t != labels ==> Lookup(v', t) == Lookup(v, t)
  {
    v.(series := v.series[labels := x])
  }

  /** Every gauge `w` sets was created, and `w`'s tuple fits its schema. */
  ghost predicate Fits<G(!new)>(g: Gauges<G>, w: Write<G>) {
    forall o :: o in w.values ==> o in g && |w.labels| == |g[o].labelNames|
  }

  ghost predicate AllFit<G(!new)>(g: Gauges<G>, ws: seq<Write<G>>) {
    forall i :: 0 <= i < |ws| ==> Fits(g, ws[i])
  }

  function ApplyWrite<G(!new)>(g: Gauges<G>, w: Write<G>): (g': Gauges<G>)
    requires Fits(g, w)
    ensures g'.Keys == g.Keys
    ensures forall o :: o in g ==> g'[o].labelNames == g[o].labelNames
    ensures forall o, t :: o in g ==>
      Lookup(g'[o], t) == (if t == w.labels && o in w.values then Some(w.values[o]) else Lookup(g[o], t))
  {
    map o | o in g :: if o in w.values then SetSeries(g[o], w.labels, w.values[o]) else g[o]
  }

  /** The value of the last write in `ws` to series `t` of gauge `o`. */
  function Last<G(!new)>(ws: seq<Write<G>>, o: G, t: Tuple): Option<real>
    decreases |ws|
  {
    if ws == [] then None
    else
      var w := ws[|ws| - 1];
      if w.labels == t && o in w.values then Some(w.values[o]) else Last(ws[..|ws| - 1], o, t)
  }

  /** Performs the writes in order. A series ends up holding the value of the
      last write to it; series nobody wrote keep their value. */
  function Apply<G(!new)>(g: Gauges<G>, ws: seq<Write<G>>): (g': Gauges<G>)
    requires AllFit(g, ws)
    ensures g'.Keys == g.Keys
    ensures forall o :: o in g ==> g'[o].labelNames == g[o].labelNames
    ensures forall o, t :: o in g ==> Lookup(g'[o], t) == Last(ws, o, t).Or(Lookup(g[o], t))
    decreases |ws|
  {
    if ws == [] then g
    else
      var prev := Apply(g, ws[..|ws| - 1]);
      assert Fits(g, ws[|ws| - 1]);
      ApplyWrite(prev, ws[|ws| - 1])
  }

  function NewRegistry<G(!new)>(): (r: Registry<G>)
    ensures forall o :: o !in r.registered
  {
    Registry({})
  }

  /** Registers the vectors `vs`; the library panics when one of them is
      already registered. */
  function MustRegister<G(!new)>(r: Registry<G>, vs: seq<G>): (r': Registry<G>)
    requires forall i :: 0 <= i < |vs| ==> vs[i] !in r.registered
    requires forall i, j :: 0 <= i < j < |vs| ==> vs[i] != vs[j]
    ensures forall o :: o in r'.registered <==> o in r.registered || o in vs
    ensures |r'.registered| == |r.registered| + |vs|
    decreases |vs|
  {
    if vs == [] then r
    else MustRegister(Registry(r.registered + {vs[0]}), vs[1..])
  }

  /** What the registry exposes: the registered vectors, as they are now. */
  function Gather<G(!new)>(r: Registry<G>, g: Gauges<G>): (exposed: Gauges<G>)
    ensures exposed.Keys == r.registered * g.Keys
    ensures forall o :: o in exposed ==> exposed[o] == g[o]
  {
    map o | o in r.registered && o in g :: g[o]
  }

  /** The options of the gauges `gs`: the descriptors they are registered under. */
  function Descriptors<G(==,!new)>(gs: seq<G>, opts: G -> GaugeOpts): (ds: set<GaugeOpts>)
    ensures forall g :: g in gs ==> opts(g) in ds
    ensures forall o :: o in ds ==> exists g :: g in gs && opts(g) == o
  {
    set g | g in gs :: opts(g)
  }

  /** The tuples that the writes `ws` address. */
  function Tuples<G(!new)>(ws: seq<Write<G>>): set<Tuple> {
    set w | w in ws :: w.labels
  }

  /** The writes of a loop whose iteration for item `k` performs `f(k)`. */
  function Each<K, G(!new)>(items: seq<K>, f: K -> seq<Write<G>>): seq<Write<G>>
    decreases |items|
  {
    if items == [] then [] else Each(items[..|items| - 1], f) + f(items[|items| - 1])
  }

  // ---------------------------------------------------------------------
  // Lemmas about the last write to a series

  /** The value a write leaves at series `t` of `o`, if it touches it. */
  function WriteAt<G(!new)>(w: Write<G>, o: G, t: Tuple): Option<real> {
    if w.labels == t && o in w.values then Some(w.values[o]) else None
  }

  /** Three writes in a row: the last one touching the series wins. */
  lemma {:induction false} LastOfThree<G(!new)>(w0: Write<G>, w1: Write<G>, w2: Write<G>, o: G, t: Tuple)
    ensures Last([w0, w1, w2], o, t) == WriteAt(w2, o, t).Or(WriteAt(w1, o, t).Or(WriteAt(w0, o, t)))
  {
    var ws := [w0, w1, w2];
    assert ws[..2] == [w0, w1] && [w0, w1][..1] == [w0] && [w0][..0] == [];
    assert Last([w0], o, t) == WriteAt(w0, o, t);
    assert Last([w0, w1], o, t) == WriteAt(w1, o, t).Or(WriteAt(w0, o, t));
  }

  lemma {:induction false} LastAppend<G(!new)>(a: seq<Write<G>>, b: seq<Write<G>>, o: G, t: Tuple)
    ensures Last(a + b, o, t) == Last(b, o, t).Or(Last(a, o, t))
    decreases |b|
  {
    if b == [] {
      assert a + b == a;
    } else {
      var n := |b| - 1;
      assert (a + b)[..|a + b| - 1] == a + b[..n];
      assert (a + b)[|a + b| - 1] == b[n];
      LastAppend(a, b[..n], o, t);
    }
  }

  /** Three writes that each fit fit together. */
  lemma {:induction false} AllFitThree<G(!new)>(g: Gauges<G>, w0: Write<G>, w1: Write<G>, w2: Write<G>)
    requires Fits(g, w0) && Fits(g, w1) && Fits(g, w2)
    ensures AllFit(g, [w0, w1, w2])
  {
    var ws := [w0, w1, w2];
    forall i | 0 <= i < 3 ensures Fits(g, ws[i]) {
      if i == 0 { assert ws[i] == w0; } else if i == 1 { assert ws[i] == w1; } else { assert ws[i] == w2; }
    }
  }

  /** A series no write of `ws` addresses stays unset. */
  lemma {:induction false} LastNotAt<G(!new)>(ws: seq<Write<G>>, o: G, t: Tuple)
    requires forall i :: 0 <= i < |ws| ==> ws[i].labels != t
    ensures Last(ws, o, t) == None
    decreases |ws|
  {
    if ws != [] {
      LastNotAt(ws[..|ws| - 1], o, t);
    }
  }

  /** Only a write to `t` can give series `t` a value. */
  lemma {:induction false} LastOnlyFromTuples<G(!new)>(ws: seq<Write<G>>, o: G, t: Tuple)
    requires t !in Tuples(ws)
    ensures Last(ws, o, t) == None
    decreases |ws|
  {
    if ws != [] {
      var n := |ws| - 1;
      assert ws[n] in ws;
      assert Tuples(ws[..n]) <= Tuples(ws) by {
        forall w | w in ws[..n] ensures w in ws { }
      }
      LastOnlyFromTuples(ws[..n], o, t);
    }
  }

  lemma {:induction false} EachAppend<K, G(!new)>(a: seq<K>, b: seq<K>, f: K -> seq<Write<G>>)
    ensures Each(a + b, f) == Each(a, f) + Each(b, f)
    decreases |b|
  {
    if b == [] {
      assert a + b == a;
    } else {
      var n := |b| - 1;
      assert (a + b)[..|a + b| - 1] == a + b[..n];
      assert (a + b)[|a + b| - 1] == b[n];
      EachAppend(a, b[..n], f);
    }
  }

  /** Writes that never set gauge `o` leave all of its series unset. */
  lemma {:induction false} LastUntouched<G(!new)>(ws: seq<Write<G>>, o: G, t: Tuple)
    requires forall i :: 0 <= i < |ws| ==> o !in ws[i].values
    ensures Last(ws, o, t) == None
    decreases |ws|
  {
    if ws != [] {
      LastUntouched(ws[..|ws| - 1], o, t);
    }
  }

  /** Two runs of writes that leave series `t` of `o` alone do not change
      what `h` left in it. */
  lemma {:induction false} LastAfterNone<G(!new)>(h: seq<Write<G>>, p: seq<Write<G>>, f: seq<Write<G>>, o: G, t: Tuple)
    requires Last(p, o, t) == None && Last(f, o, t) == None
    ensures Last(h + p + f, o, t) == Last(h, o, t)
  {
    LastAppend(h + p, f, o, t);
    LastAppend(h, p, o, t);
  }

  /** Two runs of writes that never set `o` do not change what `h` left in it. */
  lemma {:induction false} LastSkipsUntouched<G(!new)>(h: seq<Write<G>>, p: seq<Write<G>>, f: seq<Write<G>>, o: G, t: Tuple)
    requires forall i :: 0 <= i < |p| ==> o !in p[i].values
    requires forall i :: 0 <= i < |f| ==> o !in f[i].values
    ensures Last(h + p + f, o, t) == Last(h, o, t)
  {
    LastUntouched(p, o, t);
    LastUntouched(f, o, t);
    LastAfterNone(h, p, f, o, t);
  }

  /** If no iteration writes series `t` of `o`, the loop leaves it unset. */
  lemma {:induction false} LastEachNone<K, G(!new)>(items: seq<K>, f: K -> seq<Write<G>>, o: G, t: Tuple)
    requires forall k :: k in items ==> Last(f(k), o, t) == None
    ensures Last(Each(items, f), o, t) == None
    decreases |items|
  {
    if items != [] {
      var n := |items| - 1;
      assert items[n] in items;
      LastEachNone(items[..n], f, o, t);
      LastAppend(Each(items[..n], f), f(items[n]), o, t);
    }
  }

  /** If `k` is the only item whose iteration writes series `t` of `o`, the
      loop leaves there what `f(k)` wrote, wherever `k` stands in the order. */
  lemma {:induction false} LastEachUnique<K, G(!new)>(items: seq<K>, f: K -> seq<Write<G>>, k: K, o: G, t: Tuple)
    requires k in items
    requires forall k' :: k' in items && k' != k ==> Last(f(k'), o, t) == None
    ensures Last(Each(items, f), o, t) == Last(f(k), o, t)
    decreases |items|
  {
    var n := |items| - 1;
    var pre := items[..n];
    LastAppend(Each(pre, f), f(items[n]), o, t);
    if k in pre {
      LastEachUnique(pre, f, k, o, t);
    } else {
      assert items == pre + [items[n]];
      LastEachNone(pre, f, o, t);
    }
  }

  /** A loop over the same items in another order writes the same series,
      provided no two distinct items write to a common tuple. */
  lemma {:induction false} EachOrderIndependent<K, G(!new)>(items1: seq<K>, items2: seq<K>, f: K -> seq<Write<G>>)
    requires forall k :: k in items1 <==> k in items2
    requires forall k1, k2 :: k1 in items1 && k2 in items1 && k1 != k2 ==> Tuples(f(k1)) !! Tuples(f(k2))
    ensures forall o, t :: Last(Each(items1, f), o, t) == Last(Each(items2, f), o, t)
  {
    forall o, t ensures Last(Each(items1, f), o, t) == Last(Each(items2, f), o, t) {
      if k :| k in items1 && Last(f(k), o, t).Some? {
        if t !in Tuples(f(k)) {
          LastOnlyFromTuples(f(k), o, t);
        }
        forall k' | k' in items1 && k' != k ensures Last(f(k'), o, t) == None {
          LastOnlyFromTuples(f(k'), o, t);
        }
        LastEachUnique(items1, f, k, o, t);
        LastEachUnique(items2, f, k, o, t);
      } else {
        LastEachNone(items1, f, o, t);
        LastEachNone(items2, f, o, t);
      }
    }
  }

  /** Two vectors with the same schema and the same series are equal. */
  lemma {:induction false} SameSeries(a: GaugeVec, b: GaugeVec)
    requires a.labelNames == b.labelNames
    requires forall t :: Lookup(a, t) == Lookup(b, t)
    ensures a == b
  {
    assert a.series.Keys == b.series.Keys by {
      forall t ensures t in a.series <==> t in b.series {
        assert Lookup(a, t) == Lookup(b, t);
      }
    }
    forall t | t in a.series ensures a.series[t] == b.series[t] {
      assert Lookup(a, t) == Lookup(b, t);
    }
  }

  /** A fresh vector whose only series written is `t0`, last set to `x`,
      ends up holding exactly that series. */
  lemma {:induction false} OneSeries<G(!new)>(g: Gauges<G>, ws: seq<Write<G>>, o: G, t0: Tuple, x: real)
    requires Fresh(g) && AllFit(g, ws) && o in g
    requires forall t :: Last(ws, o, t) == if t == t0 then Some(x) else None
    ensures Apply(g, ws)[o] == GaugeVec(g[o].labelNames, map[t0 := x])
  {
    var v := Apply(g, ws)[o];
    forall t ensures Lookup(v, t) == Lookup(GaugeVec(g[o].labelNames, map[t0 := x]), t) {
      assert Lookup(g[o], t) == None;
    }
    SameSeries(v, GaugeVec(g[o].labelNames, map[t0 := x]));
  }

  /** The same, seen through the registry. */
  lemma {:induction false} PublishedOne<G(!new)>(r: Registry<G>, g: Gauges<G>, ws: seq<Write<G>>, o: G, t0: Tuple, x: real)
    requires Fresh(g) && AllFit(g, ws) && o in g && o in r.registered
    requires forall t :: Last(ws, o, t) == if t == t0 then Some(x) else None
    ensures Gather(r, Apply(g, ws))[o] == GaugeVec(g[o].labelNames, map[t0 := x])
  {
    OneSeries(g, ws, o, t0, x);
  }

  /** The outcome of a sequence of writes depends only on the last write to
      each series. */
  lemma {:induction false} ApplyDeterminedByLast<G(!new)>(g: Gauges<G>, ws1: seq<Write<G>>, ws2: seq<Write<G>>)
    requires AllFit(g, ws1) && AllFit(g, ws2)
    requires forall o, t :: Last(ws1, o, t) == Last(ws2, o, t)
    ensures Apply(g, ws1) == Apply(g, ws2)
  {
    var g1, g2 := Apply(g, ws1), Apply(g, ws2);
    forall o | o in g ensures g1[o] == g2[o] {
      forall t ensures Lookup(g1[o], t) == Lookup(g2[o], t) {
        assert Last(ws1, o, t) == Last(ws2, o, t);
      }
      SameSeries(g1[o], g2[o]);
    }
  }

  /** Every write of the loop fits when every iteration's writes fit. */
  lemma {:induction false} EachFits<K, G(!new)>(g: Gauges<G>, items: seq<K>, f: K -> seq<Write<G>>)
    requires forall k :: k in items ==> AllFit(g, f(k))
    ensures AllFit(g, Each(items, f))
    decreases |items|
  {
    if items != [] {
      var n := |items| - 1;
      assert items[n] in items;
      EachFits(g, items[..n], f);
    }
  }
}
