/**
 The gauge registry both exporters write into. A gauge is identified by its
 name and its ordered label names; it holds one value per tuple of label
 values (a series). A write normalises its raw value first and does nothing
 at all when the value is absent; otherwise it obtains the gauge (creating it,
 empty, on first use) and overwrites exactly one series.

 An exception raised while a cycle builds its writes is modelled by Emit: the
 writes made before the raise stay applied and the rest of the cycle is skipped.
 */
module Registry {
  import opened Optional
  import opened Json
  import opened Normalize

  /** Label name/value pairs in the order the exporter builds them. */
  type Labels = seq<(string, string)>

  function Keys(l: Labels): (r: seq<string>)
    ensures |r| == |l| && forall i | 0 <= i < |l| :: r[i] == l[i].0
  {
    seq(|l|, i requires 0 <= i < |l| => l[i].0)
  }

  function Values(l: Labels): (r: seq<string>)
    ensures |r| == |l| && forall i | 0 <= i < |l| :: r[i] == l[i].1
  {
    seq(|l|, i requires 0 <= i < |l| => l[i].1)
  }

  /** What `Gauge(name, help, labelnames)` is given. */
  datatype Descriptor = Descriptor(name: string, help: string, labelNames: seq<string>)

  /** The cache key `(name, labelnames)`. */
  datatype GaugeKey = GaugeKey(name: string, labelNames: seq<string>)

  function KeyOf(d: Descriptor): GaugeKey {
    GaugeKey(d.name, d.labelNames)
  }

  /** A gauge: its help text and the current value of each series. */
  datatype Gauge = Gauge(help: string, series: map<seq<string>, real>)

  type Registry = map<GaugeKey, Gauge>

  /** One metric write: the gauge, the labels of the series, and the raw snapshot value. */
  datatype Write = Write(gauge: Descriptor, labels: Labels, raw: Value)

  /** The labels name exactly the gauge's label names, in order. */
  predicate Conforms(w: Write) {
    Keys(w.labels) == w.gauge.labelNames
  }

  /** The current value of series s of gauge k, if that series has been set. */
  function Read(r: Registry, k: GaugeKey, s: seq<string>): Option<real> {
    if k in r && s in r[k].series then Some(r[k].series[s]) else None
  }

  /**
   `_get_gauge`: the cached gauge for the descriptor's key, or a new empty one
   with the descriptor's help text, which is then cached.
   */
  function GetGauge(r: Registry, d: Descriptor): (res: (Registry, Gauge))
    ensures res.0.Keys == r.Keys + {KeyOf(d)}
    ensures forall k | k in r :: res.0[k] == r[k]
    ensures res.0[KeyOf(d)] == res.1
    ensures KeyOf(d) !in r ==> res.1.help == d.help && res.1.series == map[]
  {
    var k := KeyOf(d);
    if k in r then (r, r[k])
    else
      var g := Gauge(d.help, map[]);
      (r[k := g], g)
  }

  /** A second `_get_gauge` with the same key returns the same gauge and leaves the cache alone. */
  lemma {:induction false} GetGaugeIdempotent(r: Registry, d: Descriptor, d2: Descriptor)
    requires KeyOf(d2) == KeyOf(d)
    ensures GetGauge(GetGauge(r, d).0, d2) == GetGauge(r, d)
  {
    var (r1, g) := GetGauge(r, d);
    assert KeyOf(d2) in r1;
  }

  /**
   `_set_metric` / `_set_gauge`: an absent normalised value leaves the registry
   untouched (no gauge is created); otherwise exactly the written series of the
   written gauge now holds the normalised value and nothing else changes.
   */
  function SetMetric(r: Registry, w: Write): (r': Registry)
    ensures AsFloat(w.raw).None? ==> r' == r
    ensures AsFloat(w.raw).Some? ==> Read(r', KeyOf(w.gauge), Values(w.labels)) == AsFloat(w.raw)
    ensures r'.Keys == r.Keys + (if AsFloat(w.raw).Some? then {KeyOf(w.gauge)} else {})
    ensures forall k | k in r && k != KeyOf(w.gauge) :: r'[k] == r[k]
    ensures forall s | s != Values(w.labels) :: Read(r', KeyOf(w.gauge), s) == Read(r, KeyOf(w.gauge), s)
    ensures KeyOf(w.gauge) in r' ==>
      r'[KeyOf(w.gauge)].help == (if KeyOf(w.gauge) in r then r[KeyOf(w.gauge)].help else w.gauge.help)
  {
    match AsFloat(w.raw)
    case None => r
    case Some(x) =>
      var (r1, g) := GetGauge(r, w.gauge);
      r1[KeyOf(w.gauge) := Gauge(g.help, g.series[Values(w.labels) := x])]
  }

  /** The registry after the writes, applied in order. */
  function Apply(r: Registry, ws: seq<Write>): (r': Registry)
    ensures r.Keys <= r'.Keys
    decreases |ws|
  {
    if |ws| == 0 then r else SetMetric(Apply(r, ws[..|ws| - 1]), ws[|ws| - 1])
  }

  /** The normalised value of the last write in ws to series s of gauge k that has one. */
  function LastValue(ws: seq<Write>, k: GaugeKey, s: seq<string>): Option<real>
    decreases |ws|
  {
    if |ws| == 0 then None
    else
      var w := ws[|ws| - 1];
      if KeyOf(w.gauge) == k && Values(w.labels) == s && AsFloat(w.raw).Some? then AsFloat(w.raw)
      else LastValue(ws[..|ws| - 1], k, s)
  }

  /** A last value comes from a write in ws to that very series. */
  lemma {:induction false} LastValueWritten(ws: seq<Write>, k: GaugeKey, s: seq<string>) returns (i: nat)
    requires LastValue(ws, k, s).Some?
    ensures i < |ws| && KeyOf(ws[i].gauge) == k && Values(ws[i].labels) == s
    ensures AsFloat(ws[i].raw) == LastValue(ws, k, s)
    ensures forall j | i < j < |ws| :: !(KeyOf(ws[j].gauge) == k && Values(ws[j].labels) == s && AsFloat(ws[j].raw).Some?)
    decreases |ws|
  {
    var w := ws[|ws| - 1];
    if KeyOf(w.gauge) == k && Values(w.labels) == s && AsFloat(w.raw).Some? {
      i := |ws| - 1;
    } else {
      var p := ws[..|ws| - 1];
      i := LastValueWritten(p, k, s);
      assert ws[i] == p[i];
      forall j | i < j < |ws| ensures !(KeyOf(ws[j].gauge) == k && Values(ws[j].labels) == s && AsFloat(ws[j].raw).Some?) {
        if j < |ws| - 1 {
          assert ws[j] == p[j];
        }
      }
    }
  }

  /**
   Last write wins: after applying ws, a series holds the value of the last
   write to it whose value normalises, and keeps its earlier value when there
   is none.
   */
  lemma {:induction false} LastWriteWins(r: Registry, ws: seq<Write>, k: GaugeKey, s: seq<string>)
    ensures Read(Apply(r, ws), k, s) ==
      (if LastValue(ws, k, s).Some? then LastValue(ws, k, s) else Read(r, k, s))
    decreases |ws|
  {
    if |ws| > 0 {
      LastWriteWins(r, ws[..|ws| - 1], k, s);
    }
  }

  /** Some write to a series with a value makes that series have a last value. */
  lemma {:induction false} LastValueSome(ws: seq<Write>, i: nat)
    requires i < |ws| && AsFloat(ws[i].raw).Some?
    ensures LastValue(ws, KeyOf(ws[i].gauge), Values(ws[i].labels)).Some?
    decreases |ws|
  {
    var w := ws[|ws| - 1];
    if i < |ws| - 1 && !(KeyOf(w.gauge) == KeyOf(ws[i].gauge) && Values(w.labels) == Values(ws[i].labels) && AsFloat(w.raw).Some?) {
      var p := ws[..|ws| - 1];
      assert p[i] == ws[i];
      LastValueSome(p, i);
    }
  }

  /**
   A series that every write in ws to it sets to the same normalised value
   reads back as that value once ws is applied, whatever it held before.
   */
  lemma {:induction false} AgreeingWritesReadBack(r: Registry, ws: seq<Write>, i: nat)
    requires i < |ws| && AsFloat(ws[i].raw).Some?
    requires forall j | 0 <= j < |ws| && KeyOf(ws[j].gauge) == KeyOf(ws[i].gauge) && Values(ws[j].labels) == Values(ws[i].labels) ::
      AsFloat(ws[j].raw).Some? ==> AsFloat(ws[j].raw) == AsFloat(ws[i].raw)
    ensures Read(Apply(r, ws), KeyOf(ws[i].gauge), Values(ws[i].labels)) == AsFloat(ws[i].raw)
  {
    var k, s := KeyOf(ws[i].gauge), Values(ws[i].labels);
    LastValueSome(ws, i);
    var j := LastValueWritten(ws, k, s);
    LastWriteWins(r, ws, k, s);
  }

  /**
   A write whose gauge no earlier or later write touches is what the registry
   holds for its series afterwards, once its value normalises.
   */
  lemma {:induction false} SoleWriteReadsBack(r: Registry, pre: seq<Write>, w: Write, post: seq<Write>)
    requires AsFloat(w.raw).Some?
    requires forall x | x in pre :: KeyOf(x.gauge) != KeyOf(w.gauge)
    requires forall x | x in post :: KeyOf(x.gauge) != KeyOf(w.gauge)
    ensures Read(Apply(r, pre + [w] + post), KeyOf(w.gauge), Values(w.labels)) == AsFloat(w.raw)
  {
    var ws := pre + [w] + post;
    var i := |pre|;
    assert forall j | 0 <= j < i :: ws[j] == pre[j];
    assert forall j | i < j < |ws| :: ws[j] == post[j - i - 1];
    AgreeingWritesReadBack(r, ws, i);
  }

  /** Writes to other gauges leave every series of gauge k reading what it read before. */
  lemma {:induction false} OtherGaugesKeepRead(r: Registry, ws: seq<Write>, k: GaugeKey, s: seq<string>)
    requires forall x | x in ws :: KeyOf(x.gauge) != k
    ensures Read(Apply(r, ws), k, s) == Read(r, k, s)
  {
    LastWriteWins(r, ws, k, s);
    if LastValue(ws, k, s).Some? {
      var i := LastValueWritten(ws, k, s);
    }
  }

  /** The gauges some write in ws creates or updates: those whose value normalises. */
  function Touched(ws: seq<Write>): set<GaugeKey> {
    set i | 0 <= i < |ws| && AsFloat(ws[i].raw).Some? :: KeyOf(ws[i].gauge)
  }

  /** The cache only grows, and by exactly the gauges that received a value. */
  lemma {:induction false} ApplyKeys(r: Registry, ws: seq<Write>)
    ensures Apply(r, ws).Keys == r.Keys + Touched(ws)
    decreases |ws|
  {
    if |ws| > 0 {
      var p := ws[..|ws| - 1];
      ApplyKeys(r, p);
      assert Touched(ws) == Touched(p) + (if AsFloat(ws[|ws| - 1].raw).Some? then {KeyOf(ws[|ws| - 1].gauge)} else {}) by {
        forall i | 0 <= i < |p| ensures p[i] == ws[i] { }
      }
    }
  }

  /** A gauge that already exists keeps its help text whatever is written. */
  lemma {:induction false} ApplyKeepsHelp(r: Registry, ws: seq<Write>, k: GaugeKey)
    requires k in r
    ensures k in Apply(r, ws) && Apply(r, ws)[k].help == r[k].help
    decreases |ws|
  {
    if |ws| > 0 {
      ApplyKeepsHelp(r, ws[..|ws| - 1], k);
    }
  }

  /** Applying a concatenation is applying its parts in turn. */
  lemma {:induction false} ApplyAppend(r: Registry, a: seq<Write>, b: seq<Write>)
    ensures Apply(r, a + b) == Apply(Apply(r, a), b)
    decreases |b|
  {
    if |b| == 0 {
      assert a + b == a;
    } else {
      assert (a + b)[..|a + b| - 1] == a + b[..|b| - 1];
      assert (a + b)[|a + b| - 1] == b[|b| - 1];
      ApplyAppend(r, a, b[..|b| - 1]);
    }
  }

  /** Two registries with the same gauges, help texts and readings are equal. */
  lemma {:induction false} RegistryExt(r1: Registry, r2: Registry)
    requires r1.Keys == r2.Keys
    requires forall k | k in r1 :: r1[k].help == r2[k].help
    requires forall k, s :: Read(r1, k, s) == Read(r2, k, s)
    ensures r1 == r2
  {
    forall k | k in r1 ensures r1[k] == r2[k] {
      var m1, m2 := r1[k].series, r2[k].series;
      forall s ensures (s in m1) == (s in m2) && (s in m1 ==> m1[s] == m2[s]) {
        assert Read(r1, k, s) == Read(r2, k, s);
      }
      assert m1 == m2;
    }
  }

  /**
   Repeating a cycle's writes changes nothing: the registry after a second,
   identical batch equals the registry after the first.
   */
  lemma {:induction false} ApplyIdempotent(r: Registry, ws: seq<Write>)
    ensures Apply(Apply(r, ws), ws) == Apply(r, ws)
  {
    var r1 := Apply(r, ws);
    var r2 := Apply(r1, ws);
    ApplyKeys(r, ws);
    ApplyKeys(r1, ws);
    forall k | k in r2 ensures r2[k].help == r1[k].help {
      ApplyKeepsHelp(r1, ws, k);
    }
    forall k, s ensures Read(r2, k, s) == Read(r1, k, s) {
      LastWriteWins(r, ws, k, s);
      LastWriteWins(r1, ws, k, s);
    }
    RegistryExt(r2, r1);
  }

  /** Writing `str(n) + " W"` reads back as n. */
  lemma {:induction false} UnitTextReadsBack(r: Registry, d: Descriptor, l: Labels, n: int)
    ensures Read(SetMetric(r, Write(d, l, VStr(Str(VInt(n)) + " W"))), KeyOf(d), Values(l)) == Some(n as real)
  {
    IntTextRoundTrip(n);
  }

  /**
   The outcome of building a block of writes: the writes produced before any
   exception, and whether an exception ended the block.
   */
  datatype Emit = Emit(writes: seq<Write>, raised: bool)

  /** Sequencing: b runs only when a finished without raising. */
  function Then(a: Emit, b: Emit): (e: Emit)
    ensures a.raised ==> e == a
    ensures !a.raised ==> e.writes == a.writes + b.writes && e.raised == b.raised
  {
    if a.raised then a else Emit(a.writes + b.writes, b.raised)
  }

  function Done(ws: seq<Write>): (e: Emit)
    ensures !e.raised && e.writes == ws
  {
    Emit(ws, false)
  }

  const Raise: Emit := Emit([], true)

  /** The writes of the blocks, one after another. */
  function Flatten(es: seq<Emit>): (ws: seq<Write>)
    decreases |es|
  {
    if |es| == 0 then [] else es[0].writes + Flatten(es[1..])
  }

  /**
   Blocks run in order and the first that raises ends the sequence: the
   result raises exactly when some block does, and otherwise holds every
   block's writes in order.
   */
  function Chain(es: seq<Emit>): (e: Emit)
    ensures e.raised <==> exists i | 0 <= i < |es| :: es[i].raised
    ensures !e.raised ==> e.writes == Flatten(es)
    decreases |es|
  {
    if |es| == 0 then Done([])
    else
      assert forall i | 1 <= i < |es| :: es[i] == es[1..][i - 1];
      Then(es[0], Chain(es[1..]))
  }

  /**
   The raise path of a chain: the first raising block k ends it. The writes
   are those of the blocks before k and the part of block k made before its
   raise; no later block writes anything.
   */
  lemma {:induction false} ChainRaised(es: seq<Emit>) returns (k: int)
    requires Chain(es).raised
    ensures 0 <= k < |es| && es[k].raised && (forall j | 0 <= j < k :: !es[j].raised)
    ensures Chain(es).writes == Flatten(es[..k]) + es[k].writes
    decreases |es|
  {
    if es[0].raised {
      k := 0;
      assert es[..0] == [];
    } else {
      var k1 := ChainRaised(es[1..]);
      k := k1 + 1;
      assert es[..k][1..] == es[1..][..k1];
      assert es[k] == es[1..][k1];
      forall j | 0 < j < k
        ensures !es[j].raised
      {
        assert es[j] == es[1..][j - 1];
      }
    }
  }

  /** Every write of a chain is a write of one of its blocks. */
  lemma {:induction false} ChainWrites(es: seq<Emit>, w: Write)
    requires w in Chain(es).writes
    ensures exists i | 0 <= i < |es| :: w in es[i].writes
    decreases |es|
  {
    if !es[0].raised && w !in es[0].writes {
      ChainWrites(es[1..], w);
      var i :| 0 <= i < |es[1..]| && w in es[1..][i].writes;
      assert es[i + 1] == es[1..][i];
    }
  }
}
