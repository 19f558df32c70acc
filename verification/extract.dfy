/**
 Building blocks shared by the extraction blocks of both exporters: label
 dictionaries, the optional-field label texts and name fallbacks, the loop
 that writes one series of a shared gauge per present entry of a dict
 literal (the `type` gauges), and the 0/1 flags.
 */
module Extract {
  import opened Optional
  import opened Json
  import opened Normalize
  import opened Registry

  /** `labels = dict(base); labels[name] = value`, for a name base does not hold yet. */
  function Extend(base: Labels, name: string, value: string): (l: Labels)
    ensures Keys(l) == Keys(base) + [name]
    ensures Values(l) == Values(base) + [value]
  {
    base + [(name, value)]
  }

  /** `str(d.get(key) or fallback)`: the text of an optional label. */
  function LabelOr(d: Dict, key: string, fallback: string): (t: string)
    ensures Truthy(Get(d, key)) ==> t == Str(Get(d, key)) && |t| > 0
    ensures !Truthy(Get(d, key)) ==> t == fallback
  {
    Str(Or(Get(d, key), VStr(fallback)))
  }

  /** `str(dev.get("name") or dev.get("alias") or "noname")`: never empty. */
  function DeviceName(dev: Dict): (t: string)
    ensures |t| > 0
    ensures Truthy(Get(dev, "name")) ==> t == Str(Get(dev, "name"))
    ensures !Truthy(Get(dev, "name")) && Truthy(Get(dev, "alias")) ==> t == Str(Get(dev, "alias"))
    ensures !Truthy(Get(dev, "name")) && !Truthy(Get(dev, "alias")) ==> t == "noname"
  {
    Str(Or(Or(Get(dev, "name"), Get(dev, "alias")), VStr("noname")))
  }

  /** The write the categorical loop makes for entry e: series `base + {name: key}` gets the entry's value. */
  function EntryWrite(d: Descriptor, base: Labels, name: string, e: (string, Value)): Write {
    Write(d, Extend(base, name, e.0), e.1)
  }

  /**
   `for key, v in entries.items(): if v is not None: set(d, {**base, name: key}, v)`:
   one write per present entry, all to the gauge d under the base labels
   followed by the entry's key.
   */
  function Categorical(d: Descriptor, base: Labels, name: string, entries: seq<(string, Value)>): (ws: seq<Write>)
    ensures |ws| <= |entries|
    ensures forall w | w in ws :: w.gauge == d && Keys(w.labels) == Keys(base) + [name] && |w.labels| == |base| + 1
    decreases |entries|
  {
    if |entries| == 0 then []
    else
      var rest := Categorical(d, base, name, entries[1..]);
      if entries[0].1 == VNone then rest else [EntryWrite(d, base, name, entries[0])] + rest
  }

  /**
   Every categorical write is the entry write of a present entry, and every
   present entry is written; None entries produce no write at all.
   */
  lemma {:induction false} CategoricalExact(d: Descriptor, base: Labels, name: string, entries: seq<(string, Value)>)
    ensures forall w | w in Categorical(d, base, name, entries) ::
      exists e | e in entries :: e.1 != VNone && w == EntryWrite(d, base, name, e)
    ensures forall e | e in entries && e.1 != VNone :: EntryWrite(d, base, name, e) in Categorical(d, base, name, entries)
    decreases |entries|
  {
    if |entries| > 0 {
      CategoricalExact(d, base, name, entries[1..]);
      assert entries == [entries[0]] + entries[1..];
    }
  }

  /** The keys of a dict literal, in order. */
  predicate DistinctEntryKeys(entries: seq<(string, Value)>) {
    forall i, j | 0 <= i < j < |entries| :: entries[i].0 != entries[j].0
  }

  /**
   With distinct keys, every present entry whose value normalises can be read
   back from its own `type` series once the categorical writes are applied.
   */
  lemma {:induction false} CategoricalReadsBack(r: Registry, d: Descriptor, base: Labels, name: string,
                                                entries: seq<(string, Value)>, k: nat)
    requires DistinctEntryKeys(entries)
    requires k < |entries| && AsFloat(entries[k].1).Some?
    ensures Read(Apply(r, Categorical(d, base, name, entries)), KeyOf(d), Values(base) + [entries[k].0])
         == AsFloat(entries[k].1)
  {
    var ws := Categorical(d, base, name, entries);
    CategoricalExact(d, base, name, entries);
    var mine := EntryWrite(d, base, name, entries[k]);
    assert mine in ws;
    var i :| 0 <= i < |ws| && ws[i] == mine;
    forall j | 0 <= j < |ws| && KeyOf(ws[j].gauge) == KeyOf(ws[i].gauge) && Values(ws[j].labels) == Values(ws[i].labels)
      ensures ws[j] == mine
    {
      assert ws[j] in ws;
      var e :| e in entries && e.1 != VNone && ws[j] == EntryWrite(d, base, name, e);
      var m :| 0 <= m < |entries| && entries[m] == e;
      assert Values(ws[j].labels)[|base|] == e.0;
      assert Values(mine.labels)[|base|] == entries[k].0;
    }
    AgreeingWritesReadBack(r, ws, i);
  }

  /** `1.0 if v else 0.0`. */
  function Bit(v: Value): (r: Value)
    ensures r.VReal? && (r.r == 1.0 <==> Truthy(v)) && (r.r == 0.0 <==> !Truthy(v))
  {
    VReal(if Truthy(v) then 1.0 else 0.0)
  }

  /**
   `(1.0 if v else 0.0) if v is not None else None`: a tri-state flag that is
   None when the field is None and otherwise 1 or 0 by truthiness.
   */
  function Flag(v: Value): (r: Value)
    ensures r.VNone? <==> v.VNone?
    ensures !v.VNone? ==> r == Bit(v)
  {
    if v.VNone? then VNone else Bit(v)
  }

  /** The flag normalises to nothing for None and to 1 or 0 by truthiness otherwise. */
  lemma {:induction false} FlagValue(v: Value)
    ensures AsFloat(Flag(v)).None? <==> v.VNone?
    ensures !v.VNone? ==> AsFloat(Flag(v)) == Some(if Truthy(v) then 1.0 else 0.0)
    ensures AsFloat(Bit(v)) == Some(if Truthy(v) then 1.0 else 0.0)
  {
  }

  /**
   `if v is not None: set(d, labels, 1.0 if v else 0.0)`: the guarded form of
   the same flag, which writes nothing at all for None.
   */
  function Guarded(d: Descriptor, labels: Labels, v: Value): (ws: seq<Write>)
    ensures v.VNone? <==> ws == []
    ensures !v.VNone? ==> ws == [Write(d, labels, Bit(v))]
  {
    if v.VNone? then [] else [Write(d, labels, Bit(v))]
  }

  /** Writing the tri-state flag and writing the guarded flag leave the same registry. */
  lemma {:induction false} FlagGuardedAgree(r: Registry, d: Descriptor, labels: Labels, v: Value)
    ensures SetMetric(r, Write(d, labels, Flag(v))) == Apply(r, Guarded(d, labels, v))
  {
    FlagValue(v);
    if !v.VNone? {
      assert Guarded(d, labels, v)[..0] == [];
    }
  }

  /**
   One single-series field of an extraction block: the gauge, the snapshot key
   it reads, and how the value is shaped — read as it is, as a tri-state flag,
   or read as it is under an extra `desc` label holding an optional text.
   */
  datatype Field =
    | Plain(gauge: Descriptor, key: string)
    | Flagged(gauge: Descriptor, key: string)
    | Described(gauge: Descriptor, key: string, descKey: string)

  /** The write a field makes under the given labels. */
  function FieldWrite(labels: Labels, d: Dict, f: Field): (w: Write)
    ensures w.gauge == f.gauge
    ensures !f.Described? ==> w.labels == labels
    ensures f.Described? ==> Keys(w.labels) == Keys(labels) + ["desc"] && |w.labels| == |labels| + 1
    ensures f.Described? ==> Values(w.labels) == Values(labels) + [LabelOr(d, f.descKey, "")]
    ensures f.Flagged? ==> (w.raw.VNone? <==> Get(d, f.key).VNone?)
    ensures !f.Flagged? ==> w.raw == Get(d, f.key)
  {
    match f
    case Plain(g, key) => Write(g, labels, Get(d, key))
    case Flagged(g, key) => Write(g, labels, Flag(Get(d, key)))
    case Described(g, key, descKey) => Write(g, Extend(labels, "desc", LabelOr(d, descKey, "")), Get(d, key))
  }

  /** The fields written one after the other, in table order. */
  function Fields(labels: Labels, d: Dict, fs: seq<Field>): (ws: seq<Write>)
    ensures |ws| == |fs|
    ensures forall i | 0 <= i < |fs| :: ws[i] == FieldWrite(labels, d, fs[i])
  {
    seq(|fs|, i requires 0 <= i < |fs| => FieldWrite(labels, d, fs[i]))
  }

  /** A field fits labels with the given names when its gauge was declared with exactly the names it writes. */
  predicate FieldFits(f: Field, names: seq<string>) {
    if f.Described? then f.gauge.labelNames == names + ["desc"] else f.gauge.labelNames == names
  }

  /** A table of fitting fields into the gauges ds conforms. */
  lemma {:induction false} FieldsConform(labels: Labels, d: Dict, fs: seq<Field>, ds: set<Descriptor>)
    requires forall i | 0 <= i < |fs| :: FieldFits(fs[i], Keys(labels)) && fs[i].gauge in ds
    ensures AllConform(Fields(labels, d, fs), ds)
  {
    var ws := Fields(labels, d, fs);
    forall w | w in ws ensures Conforms(w) && w.gauge in ds {
      var i :| 0 <= i < |ws| && ws[i] == w;
      assert FieldFits(fs[i], Keys(labels));
    }
  }

  /** Every write names exactly its gauge's label names and goes to one of the gauges ds. */
  predicate AllConform(ws: seq<Write>, ds: set<Descriptor>) {
    forall w | w in ws :: Conforms(w) && w.gauge in ds
  }

  lemma {:induction false} ConformAppend(a: seq<Write>, b: seq<Write>, ds: set<Descriptor>)
    requires AllConform(a, ds) && AllConform(b, ds)
    ensures AllConform(a + b, ds)
  {
    forall w | w in a + b ensures Conforms(w) && w.gauge in ds {
      assert w in a || w in b;
    }
  }

  /** A block of writes that conforms stays conforming when sequenced after another. */
  lemma {:induction false} ThenConforms(a: Emit, b: Emit, ds: set<Descriptor>)
    requires AllConform(a.writes, ds) && AllConform(b.writes, ds)
    ensures AllConform(Then(a, b).writes, ds)
  {
    if !a.raised {
      ConformAppend(a.writes, b.writes, ds);
    }
  }

  /** The gauges that conforming writes can touch are among the descriptors' keys. */
  lemma {:induction false} ConformingTouches(ws: seq<Write>, ds: set<Descriptor>)
    requires AllConform(ws, ds)
    ensures Touched(ws) <= set d | d in ds :: KeyOf(d)
  {
    forall k | k in Touched(ws) ensures k in set d | d in ds :: KeyOf(d) {
      var i :| 0 <= i < |ws| && AsFloat(ws[i].raw).Some? && KeyOf(ws[i].gauge) == k;
      assert ws[i] in ws;
    }
  }

  /** A chain of conforming blocks conforms. */
  lemma {:induction false} ChainConforms(es: seq<Emit>, ds: set<Descriptor>)
    requires forall i | 0 <= i < |es| :: AllConform(es[i].writes, ds)
    ensures AllConform(Chain(es).writes, ds)
  {
    forall w | w in Chain(es).writes ensures Conforms(w) && w.gauge in ds {
      ChainWrites(es, w);
    }
  }
}
