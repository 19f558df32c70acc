/**
 The stand-alone exporter script. It declares no gauges up front: every
 write names its metric and help text, and the gauge is taken from the cache
 keyed by the name and the label names of the write's labels, created on
 first use. Site writes carry the labels `site_id, site_name`; device writes
 carry `device_sn, site_id, type, name`; the info series adds part number,
 generation and firmware version.

 Metric names are written as a family prefix (`anker_site_` or
 `anker_device_`) followed by a suffix, which is how every name of the script
 is formed.
 */
module Script {
  import opened Optional
  import opened Json
  import opened Normalize
  import opened Registry
  import opened Extract
  import Site
  import Cycle
  import Schedule

  /** Where a metric's raw value comes from. */
  datatype Source =
    | Key(key: string)                     // `d.get(key)`
    | Fallback(key: string, other: string) // `d.get(key) or d.get(other)`
    | Switch(key: string)                  // `if d.get(key) is not None: 1.0 if d.get(key) else 0.0`

  /** One `_set_metric` call of the script: name suffix, help text and value source. */
  datatype Metric = Metric(suffix: string, help: string, source: Source)

  const SitePrefix: string := "anker_site_"
  const DevicePrefix: string := "anker_device_"

  /** The descriptor `_set_metric` derives: the name, the help, and the label names of the labels in order. */
  function LazyGauge(name: string, help: string, labels: Labels): (g: Descriptor)
    ensures g.name == name && g.labelNames == Keys(labels)
  {
    Descriptor(name, help, Keys(labels))
  }

  /**
   The write of one metric. A switch writes the tri-state flag, which is None
   when the field is None and so leaves the registry exactly as the script's
   `if ... is not None` guard does (SwitchIsGuarded).
   */
  function MetricWrite(prefix: string, labels: Labels, d: Dict, m: Metric): (w: Write)
    ensures w.labels == labels && w.gauge == LazyGauge(prefix + m.suffix, m.help, labels)
    ensures m.source.Key? ==> w.raw == Get(d, m.source.key)
    ensures m.source.Fallback? && Truthy(Get(d, m.source.key)) ==> w.raw == Get(d, m.source.key)
    ensures m.source.Fallback? && !Truthy(Get(d, m.source.key)) ==> w.raw == Get(d, m.source.other)
    ensures m.source.Switch? ==> w.raw == Flag(Get(d, m.source.key))
  {
    var g := LazyGauge(prefix + m.suffix, m.help, labels);
    match m.source
    case Key(k) => Write(g, labels, Get(d, k))
    case Fallback(k, o) => Write(g, labels, Or(Get(d, k), Get(d, o)))
    case Switch(k) => Write(g, labels, Flag(Get(d, k)))
  }

  /** A switch metric changes the registry exactly as the guarded write does: nothing for None, else 1 or 0. */
  lemma {:induction false} SwitchIsGuarded(r: Registry, prefix: string, labels: Labels, d: Dict, m: Metric)
    requires m.source.Switch?
    ensures var g := LazyGauge(prefix + m.suffix, m.help, labels);
      SetMetric(r, MetricWrite(prefix, labels, d, m)) == Apply(r, Guarded(g, labels, Get(d, m.source.key)))
  {
    FlagGuardedAgree(r, LazyGauge(prefix + m.suffix, m.help, labels), labels, Get(d, m.source.key));
  }

  /** The metrics of a table, written one after the other under the same labels, one write per metric. */
  function MetricsWrites(prefix: string, labels: Labels, d: Dict, ms: seq<Metric>): (ws: seq<Write>)
    ensures |ws| == |ms|
    ensures forall i | 0 <= i < |ms| :: ws[i] == MetricWrite(prefix, labels, d, ms[i])
  {
    seq(|ms|, i requires 0 <= i < |ms| => MetricWrite(prefix, labels, d, ms[i]))
  }

  // ---------------------------------------------------------------- sites

  const HomeLoad: Metric := Metric("home_load_power_watts", "Current site home load power", Key("home_load_power"))

  /** The Solarbank totals and the cascaded flag, read from `solarbank_info`. */
  const SolarbankMetrics: seq<Metric> := [
    Metric("to_home_load_power_watts", "Power from Solarbank to home load", Key("to_home_load")),
    Metric("total_pv_power_watts", "Total photovoltaic power of Solarbank(s)", Key("total_photovoltaic_power")),
    Metric("total_output_power_watts", "Total AC output power of Solarbank(s)", Key("total_output_power")),
    Metric("total_charging_power_watts", "Total charging power to Solarbank batteries (can be negative when discharging)",
           Key("total_charging_power")),
    Metric("battery_discharge_power_watts", "Battery discharge power total (if provided)", Key("battery_discharge_power")),
    Metric("solarbanks_cascaded", "Whether multiple Solarbank generations are cascaded (1) or not (0)", Switch("sb_cascaded")) ]

  const PlugTotal: Metric := Metric("smart_plugs_total_power_watts", "Total power of smart plugs in site", Key("total_power"))

  /** The load fields read from the site itself after the smart-plug total. */
  const LoadMetrics: seq<Metric> := [
    Metric("other_loads_power_watts", "Other loads (planned) power", Key("other_loads_power")),
    Metric("retain_load_preset_watts", "Site retain load preset (W)", Key("retain_load")) ]

  const DataValidName: string := "data_valid"
  const DataValidHelp: string := "Whether site data is valid (1) or not (0)"
  const SocSuffix: string := "total_battery_soc_percent"
  const SocHelp: string := "Total Solarbank state-of-charge (percent)"

  /** The last writes of a site: the validity flag, always, then the state of charge when it normalises. */
  function ClosingWrites(labels: Labels, site: Dict, sb: Dict): (ws: seq<Write>)
    ensures |ws| >= 1 && ws[0] == Write(LazyGauge(SitePrefix + DataValidName, DataValidHelp, labels), labels, Bit(Get(site, "data_valid")))
    ensures |ws| == 2 <==> Site.SocPercent(sb).Some?
    ensures |ws| == 2 ==> ws[1].raw == VReal(Site.SocPercent(sb).value)
    ensures forall w | w in ws :: w.labels == labels && w.gauge.labelNames == Keys(labels)
    ensures |ws| == 2 ==> ws[1].gauge == LazyGauge(SitePrefix + SocSuffix, SocHelp, labels)
  {
    var valid := Write(LazyGauge(SitePrefix + DataValidName, DataValidHelp, labels), labels, Bit(Get(site, "data_valid")));
    match Site.SocPercent(sb)
    case Some(p) =>
      [valid, Write(LazyGauge(SitePrefix + SocSuffix, SocHelp, labels), labels, VReal(p))]
    case None => [valid]
  }

  /** From the smart-plug info on: `smart_plug_info or {}` raises at `.get` when truthy but not a mapping. */
  function PlugPart(labels: Labels, site: Dict, sb: Dict): (e: Emit)
    ensures e.raised <==> !Site.MappingOrFalsy(Get(site, "smart_plug_info"))
    ensures e.raised ==> e.writes == []
  {
    match DictOrEmpty(Get(site, "smart_plug_info"))
    case None => Raise
    case Some(sp) =>
      Done([MetricWrite(SitePrefix, labels, sp, PlugTotal)] + MetricsWrites(SitePrefix, labels, site, LoadMetrics)
           + ClosingWrites(labels, site, sb))
  }

  /** From the Solarbank info on: `solarbank_info or {}` raises at `.get` when truthy but not a mapping. */
  function SolarbankPart(labels: Labels, site: Dict): (e: Emit)
    ensures e.raised <==> !Site.MappingOrFalsy(Get(site, "solarbank_info")) || !Site.MappingOrFalsy(Get(site, "smart_plug_info"))
    ensures !Site.MappingOrFalsy(Get(site, "solarbank_info")) ==> e.writes == []
  {
    match DictOrEmpty(Get(site, "solarbank_info"))
    case None => Raise
    case Some(sb) => Then(Done(MetricsWrites(SitePrefix, labels, sb, SolarbankMetrics)), PlugPart(labels, site, sb))
  }

  /** The parts of a site that must be mappings (or falsy) for its block to run to the end. */
  predicate SiteShaped(site: Dict) {
    && Site.MappingOrFalsy(Get(site, "site_info"))
    && Site.MappingOrFalsy(Get(site, "solarbank_info"))
    && Site.MappingOrFalsy(Get(site, "smart_plug_info"))
  }

  /**
   One site. A malformed `site_info` raises before any write; a malformed
   `solarbank_info` raises right after the home-load write; a malformed
   `smart_plug_info` raises after the Solarbank writes.
   */
  function SiteBlock(siteId: string, site: Dict): (e: Emit)
    ensures e.raised <==> !SiteShaped(site)
    ensures !Site.MappingOrFalsy(Get(site, "site_info")) ==> e.writes == []
    ensures Site.MappingOrFalsy(Get(site, "site_info")) && !Site.MappingOrFalsy(Get(site, "solarbank_info")) ==>
      e.writes == [MetricWrite(SitePrefix, Site.SiteLabels(siteId, DictOrEmpty(Get(site, "site_info")).value), site, HomeLoad)]
  {
    match DictOrEmpty(Get(site, "site_info"))
    case None => Raise
    case Some(info) =>
      var labels := Site.SiteLabels(siteId, info);
      Then(Done([MetricWrite(SitePrefix, labels, site, HomeLoad)]), SolarbankPart(labels, site))
  }

  /** A site that runs to its end always writes its validity flag, 0 when missing or falsy. */
  lemma {:induction false} DataValidAlwaysWritten(siteId: string, site: Dict, info: Dict, sb: Dict)
    requires SiteShaped(site)
    requires DictOrEmpty(Get(site, "site_info")) == Some(info) && DictOrEmpty(Get(site, "solarbank_info")) == Some(sb)
    ensures var labels := Site.SiteLabels(siteId, info);
      Write(LazyGauge(SitePrefix + DataValidName, DataValidHelp, labels), labels, Bit(Get(site, "data_valid")))
        in SiteBlock(siteId, site).writes
  {
    var labels := Site.SiteLabels(siteId, info);
    var sp := DictOrEmpty(Get(site, "smart_plug_info")).value;
    var closing := ClosingWrites(labels, site, sb);
    var tail := [MetricWrite(SitePrefix, labels, sp, PlugTotal)] + MetricsWrites(SitePrefix, labels, site, LoadMetrics) + closing;
    assert closing[0] in tail;
    assert PlugPart(labels, site, sb).writes == tail;
    var sbw := MetricsWrites(SitePrefix, labels, sb, SolarbankMetrics);
    assert SolarbankPart(labels, site).writes == sbw + tail;
    assert SiteBlock(siteId, site).writes == [MetricWrite(SitePrefix, labels, site, HomeLoad)] + (sbw + tail);
  }

  function SiteBlocks(sites: seq<(string, Dict)>): (es: seq<Emit>)
    ensures |es| == |sites|
    ensures forall i | 0 <= i < |sites| :: es[i] == SiteBlock(sites[i].0, sites[i].1)
  {
    seq(|sites|, i requires 0 <= i < |sites| => SiteBlock(sites[i].0, sites[i].1))
  }

  /** The site loop of the script: the first site that is not shaped ends it, and with it the cycle. */
  function Sites(sites: seq<(string, Dict)>): (e: Emit)
    ensures e.raised <==> exists i | 0 <= i < |sites| :: !SiteShaped(sites[i].1)
  {
    var es := SiteBlocks(sites);
    assert forall i | 0 <= i < |sites| :: es[i].raised == !SiteShaped(sites[i].1);
    Chain(es)
  }

  /** The suffixes of a table's metrics, in order. */
  function Suffixes(ms: seq<Metric>): (ss: seq<string>)
    ensures |ss| == |ms| && forall i | 0 <= i < |ms| :: ss[i] == ms[i].suffix
  {
    seq(|ms|, i requires 0 <= i < |ms| => ms[i].suffix)
  }

  /** The metric names of a site after the prefix, in the order the site block writes them. */
  const SiteSuffixes: seq<string> :=
    [HomeLoad.suffix] + Suffixes(SolarbankMetrics) + [PlugTotal.suffix] + Suffixes(LoadMetrics) + [DataValidName, SocSuffix]

  /** The first and seventh characters of each site suffix, which already tell them apart. */
  const SiteSuffixTags: seq<(char, char)> := [
    ('h', 'o'), ('t', 'e'), ('t', 'p'), ('t', 'o'), ('t', 'c'), ('b', 'y'),
    ('s', 'a'), ('s', 'p'), ('o', 'l'), ('r', '_'), ('d', 'a'), ('t', 'b') ]

  lemma {:induction false} SiteSuffixTagsMatch()
    ensures |SiteSuffixes| == |SiteSuffixTags|
    ensures forall i | 0 <= i < |SiteSuffixes| :: |SiteSuffixes[i]| > 6 && (SiteSuffixes[i][0], SiteSuffixes[i][6]) == SiteSuffixTags[i]
  {
    SiteSuffixesLayout();
    HeadTagsMatch();
    TailTagsMatch();
  }

  lemma {:induction false} HeadTagsMatch()
    ensures forall k | 0 <= k < 6 ::
      (|SolarbankMetrics[k].suffix| > 6 && (SolarbankMetrics[k].suffix[0], SolarbankMetrics[k].suffix[6]) == SiteSuffixTags[1 + k])
  {
  }

  lemma {:induction false} TailTagsMatch()
    ensures |HomeLoad.suffix| > 6 && (HomeLoad.suffix[0], HomeLoad.suffix[6]) == SiteSuffixTags[0]
    ensures |PlugTotal.suffix| > 6 && (PlugTotal.suffix[0], PlugTotal.suffix[6]) == SiteSuffixTags[7]
    ensures forall k | 0 <= k < 2 :: |LoadMetrics[k].suffix| > 6 && (LoadMetrics[k].suffix[0], LoadMetrics[k].suffix[6]) == SiteSuffixTags[8 + k]
    ensures |DataValidName| > 6 && (DataValidName[0], DataValidName[6]) == SiteSuffixTags[10]
    ensures |SocSuffix| > 6 && (SocSuffix[0], SocSuffix[6]) == SiteSuffixTags[11]
  {
  }

  lemma {:induction false} SiteSuffixTagsDistinct()
    ensures forall i, j | 0 <= i < j < |SiteSuffixTags| :: SiteSuffixTags[i] != SiteSuffixTags[j]
  {
  }

  /** Strings with pairwise different tags are pairwise different. */
  lemma {:induction false} TagsSeparate(ss: seq<string>, tags: seq<(char, char)>)
    requires |ss| == |tags|
    requires forall i | 0 <= i < |ss| :: |ss[i]| > 6 && (ss[i][0], ss[i][6]) == tags[i]
    requires forall i, j | 0 <= i < j < |tags| :: tags[i] != tags[j]
    ensures forall i, j | 0 <= i < j < |ss| :: ss[i] != ss[j]
  {
    forall i, j | 0 <= i < j < |ss| ensures ss[i] != ss[j] {
      assert tags[i] != tags[j];
    }
  }

  /** The site suffixes are pairwise different. */
  lemma {:induction false} SiteSuffixesDistinct()
    ensures forall i, j | 0 <= i < j < |SiteSuffixes| :: SiteSuffixes[i] != SiteSuffixes[j]
  {
    SiteSuffixTagsMatch();
    SiteSuffixTagsDistinct();
    TagsSeparate(SiteSuffixes, SiteSuffixTags);
  }

  /** Where each part of a site sits in the suffix list. */
  lemma {:induction false} SiteSuffixesLayout()
    ensures |SiteSuffixes| == 12 && |SolarbankMetrics| == 6 && |LoadMetrics| == 2
    ensures SiteSuffixes[0] == HomeLoad.suffix && SiteSuffixes[7] == PlugTotal.suffix
    ensures SiteSuffixes[10] == DataValidName && SiteSuffixes[11] == SocSuffix
    ensures forall k | 0 <= k < 6 :: SiteSuffixes[1 + k] == SolarbankMetrics[k].suffix
    ensures forall k | 0 <= k < 2 :: SiteSuffixes[8 + k] == LoadMetrics[k].suffix
  {
  }

  /** The writes ws carry, in order, the site names from position off on. */
  predicate NamedAt(ws: seq<Write>, off: nat) {
    off + |ws| <= |SiteSuffixes| && forall i | 0 <= i < |ws| :: ws[i].gauge.name == SitePrefix + SiteSuffixes[off + i]
  }

  lemma {:induction false} NamedAppend(a: seq<Write>, b: seq<Write>, off: nat)
    requires NamedAt(a, off) && NamedAt(b, off + |a|)
    ensures NamedAt(a + b, off)
  {
    forall i | 0 <= i < |a + b| ensures (a + b)[i].gauge.name == SitePrefix + SiteSuffixes[off + i] {
      if i >= |a| {
        assert (a + b)[i] == b[i - |a|];
      }
    }
  }

  /** A table's writes carry the table's own suffixes. */
  lemma {:induction false} TableNamed(labels: Labels, d: Dict, ms: seq<Metric>, off: nat)
    requires off + |ms| <= |SiteSuffixes| && forall k | 0 <= k < |ms| :: SiteSuffixes[off + k] == ms[k].suffix
    ensures NamedAt(MetricsWrites(SitePrefix, labels, d, ms), off)
  {
  }

  /**
   Every write of a site, whether or not the block runs to its end, goes to
   the gauge named by the prefix and the suffix at its own position.
   */
  lemma {:induction false} SiteWriteNames(siteId: string, site: Dict)
    ensures NamedAt(SiteBlock(siteId, site).writes, 0)
  {
    SiteSuffixesLayout();
    match DictOrEmpty(Get(site, "site_info"))
    case None =>
    case Some(info) =>
      var labels := Site.SiteLabels(siteId, info);
      var home := [MetricWrite(SitePrefix, labels, site, HomeLoad)];
      assert NamedAt(home, 0);
      assert SiteBlock(siteId, site).writes == home + SolarbankPart(labels, site).writes;
      SolarbankPartNamed(labels, site);
      NamedAppend(home, SolarbankPart(labels, site).writes, 0);
  }

  /** The Solarbank part carries the names from the Solarbank totals on. */
  lemma {:induction false} SolarbankPartNamed(labels: Labels, site: Dict)
    ensures NamedAt(SolarbankPart(labels, site).writes, 1)
  {
    SiteSuffixesLayout();
    match DictOrEmpty(Get(site, "solarbank_info"))
    case None =>
    case Some(sb) =>
      var sbw := MetricsWrites(SitePrefix, labels, sb, SolarbankMetrics);
      TableNamed(labels, sb, SolarbankMetrics, 1);
      PlugPartNamed(labels, site, sb);
      assert SolarbankPart(labels, site).writes == sbw + PlugPart(labels, site, sb).writes;
      NamedAppend(sbw, PlugPart(labels, site, sb).writes, 1);
  }

  /** The smart-plug part carries the names from the plug total on. */
  lemma {:induction false} PlugPartNamed(labels: Labels, site: Dict, sb: Dict)
    ensures NamedAt(PlugPart(labels, site, sb).writes, 7)
  {
    SiteSuffixesLayout();
    match DictOrEmpty(Get(site, "smart_plug_info"))
    case None =>
    case Some(sp) =>
      var plug := [MetricWrite(SitePrefix, labels, sp, PlugTotal)];
      var loads := MetricsWrites(SitePrefix, labels, site, LoadMetrics);
      var closing := ClosingWrites(labels, site, sb);
      assert PlugPart(labels, site, sb).writes == plug + loads + closing;
      assert NamedAt(plug, 7);
      TableNamed(labels, site, LoadMetrics, 8);
      assert NamedAt(closing, 10);
      NamedAppend(plug, loads, 7);
      NamedAppend(plug + loads, closing, 7);
  }

  /** Writes to different names, one prefix apart, go to different gauges. */
  lemma {:induction false} PrefixKeysDiffer(a: Descriptor, b: Descriptor, sa: string, sb: string)
    requires a.name == SitePrefix + sa && b.name == SitePrefix + sb && sa != sb
    ensures KeyOf(a) != KeyOf(b)
  {
    assert a.name[|SitePrefix|..] == sa && b.name[|SitePrefix|..] == sb;
  }

  /** No two writes of a site go to the same gauge, so none overwrites another. */
  lemma {:induction false} SiteWritesSeparate(siteId: string, site: Dict)
    ensures var ws := SiteBlock(siteId, site).writes;
      forall i, j | 0 <= i < |ws| && 0 <= j < |ws| && i != j :: KeyOf(ws[i].gauge) != KeyOf(ws[j].gauge)
  {
    var ws := SiteBlock(siteId, site).writes;
    SiteWriteNames(siteId, site);
    SiteSuffixesDistinct();
    assert forall i | 0 <= i < |ws| :: ws[i].gauge.name == SitePrefix + SiteSuffixes[i];
    forall i, j | 0 <= i < |ws| && 0 <= j < |ws| && i != j ensures KeyOf(ws[i].gauge) != KeyOf(ws[j].gauge) {
      PrefixKeysDiffer(ws[i].gauge, ws[j].gauge, SiteSuffixes[i], SiteSuffixes[j]);
    }
  }

  /**
   After a site of the script, every write the site made whose value
   normalises is what the registry holds for its series.
   */
  lemma {:induction false} SiteWriteReadsBack(r: Registry, siteId: string, site: Dict, i: nat)
    requires i < |SiteBlock(siteId, site).writes| && AsFloat(SiteBlock(siteId, site).writes[i].raw).Some?
    ensures var ws := SiteBlock(siteId, site).writes;
      Read(Apply(r, ws), KeyOf(ws[i].gauge), Values(ws[i].labels)) == AsFloat(ws[i].raw)
  {
    SiteWritesSeparate(siteId, site);
    AgreeingWritesReadBack(r, SiteBlock(siteId, site).writes, i);
  }

  /** The writes of a site that runs to its end, part by part. */
  lemma {:induction false} ShapedWrites(siteId: string, site: Dict, info: Dict, sb: Dict, sp: Dict)
    requires DictOrEmpty(Get(site, "site_info")) == Some(info) && DictOrEmpty(Get(site, "solarbank_info")) == Some(sb)
    requires DictOrEmpty(Get(site, "smart_plug_info")) == Some(sp)
    ensures var labels := Site.SiteLabels(siteId, info);
      SiteBlock(siteId, site).writes
        == [MetricWrite(SitePrefix, labels, site, HomeLoad)] + MetricsWrites(SitePrefix, labels, sb, SolarbankMetrics)
           + [MetricWrite(SitePrefix, labels, sp, PlugTotal)] + MetricsWrites(SitePrefix, labels, site, LoadMetrics)
           + ClosingWrites(labels, site, sb)
  {
  }

  /**
   After a site whose Solarbank info is a mapping, each Solarbank total and
   the cascaded flag read what their fields of `solarbank_info` normalise to,
   under the site labels, even when the smart-plug part raises afterwards.
   */
  lemma {:induction false} SolarbankReadsBack(r: Registry, siteId: string, site: Dict, info: Dict, sb: Dict, k: nat)
    requires DictOrEmpty(Get(site, "site_info")) == Some(info) && DictOrEmpty(Get(site, "solarbank_info")) == Some(sb)
    requires k < |SolarbankMetrics|
    requires AsFloat(MetricWrite(SitePrefix, Site.SiteLabels(siteId, info), sb, SolarbankMetrics[k]).raw).Some?
    ensures var labels := Site.SiteLabels(siteId, info);
      Read(Apply(r, SiteBlock(siteId, site).writes),
           KeyOf(LazyGauge(SitePrefix + SolarbankMetrics[k].suffix, SolarbankMetrics[k].help, labels)), Values(labels))
      == AsFloat(MetricWrite(SitePrefix, labels, sb, SolarbankMetrics[k]).raw)
  {
    SolarbankWriteAt(siteId, site, info, sb, k);
    MetricReadsBack(r, siteId, site, Site.SiteLabels(siteId, info), sb, SolarbankMetrics[k], 1 + k);
  }

  /** A metric write of a site whose value normalises is what its series reads afterwards. */
  lemma {:induction false} MetricReadsBack(r: Registry, siteId: string, site: Dict, labels: Labels, d: Dict, m: Metric, i: nat)
    requires i < |SiteBlock(siteId, site).writes| && SiteBlock(siteId, site).writes[i] == MetricWrite(SitePrefix, labels, d, m)
    requires AsFloat(MetricWrite(SitePrefix, labels, d, m).raw).Some?
    ensures Read(Apply(r, SiteBlock(siteId, site).writes), KeyOf(LazyGauge(SitePrefix + m.suffix, m.help, labels)), Values(labels))
            == AsFloat(MetricWrite(SitePrefix, labels, d, m).raw)
  {
    SiteWriteReadsBack(r, siteId, site, i);
  }

  /** Once the Solarbank info is a mapping, the Solarbank writes follow the home-load write. */
  lemma {:induction false} SolarbankWriteAt(siteId: string, site: Dict, info: Dict, sb: Dict, k: nat)
    requires DictOrEmpty(Get(site, "site_info")) == Some(info) && DictOrEmpty(Get(site, "solarbank_info")) == Some(sb)
    requires k < |SolarbankMetrics|
    ensures 1 + k < |SiteBlock(siteId, site).writes|
    ensures SiteBlock(siteId, site).writes[1 + k] == MetricWrite(SitePrefix, Site.SiteLabels(siteId, info), sb, SolarbankMetrics[k])
  {
    var labels := Site.SiteLabels(siteId, info);
    var ws := SiteBlock(siteId, site).writes;
    var part := SolarbankPart(labels, site).writes;
    var sbw := MetricsWrites(SitePrefix, labels, sb, SolarbankMetrics);
    assert ws == [MetricWrite(SitePrefix, labels, site, HomeLoad)] + part;
    assert part == sbw + PlugPart(labels, site, sb).writes;
    assert ws[1 + k] == part[k] == sbw[k];
  }

  /**
   After a site that runs to its end, the other-loads power and the retain
   load preset read what the site's fields normalise to.
   */
  lemma {:induction false} LoadReadsBack(r: Registry, siteId: string, site: Dict, info: Dict, sb: Dict, sp: Dict, k: nat)
    requires DictOrEmpty(Get(site, "site_info")) == Some(info) && DictOrEmpty(Get(site, "solarbank_info")) == Some(sb)
    requires DictOrEmpty(Get(site, "smart_plug_info")) == Some(sp)
    requires k < |LoadMetrics|
    requires AsFloat(MetricWrite(SitePrefix, Site.SiteLabels(siteId, info), site, LoadMetrics[k]).raw).Some?
    ensures var labels := Site.SiteLabels(siteId, info);
      Read(Apply(r, SiteBlock(siteId, site).writes),
           KeyOf(LazyGauge(SitePrefix + LoadMetrics[k].suffix, LoadMetrics[k].help, labels)), Values(labels))
      == AsFloat(MetricWrite(SitePrefix, labels, site, LoadMetrics[k]).raw)
  {
    var ws := SiteBlock(siteId, site).writes;
    ShapedWrites(siteId, site, info, sb, sp);
    SiteSuffixesLayout();
    assert ws[8 + k] == MetricWrite(SitePrefix, Site.SiteLabels(siteId, info), site, LoadMetrics[k]);
    MetricReadsBack(r, siteId, site, Site.SiteLabels(siteId, info), site, LoadMetrics[k], 8 + k);
  }

  /**
   After a site that runs to its end, the validity flag reads 1 or 0 by the
   truth of `data_valid`, and the state of charge, when the fraction
   normalises, reads 100 times it.
   */
  lemma {:induction false} ClosingReadsBack(r: Registry, siteId: string, site: Dict, info: Dict, sb: Dict, sp: Dict)
    requires DictOrEmpty(Get(site, "site_info")) == Some(info) && DictOrEmpty(Get(site, "solarbank_info")) == Some(sb)
    requires DictOrEmpty(Get(site, "smart_plug_info")) == Some(sp)
    ensures var labels := Site.SiteLabels(siteId, info);
      Read(Apply(r, SiteBlock(siteId, site).writes), KeyOf(LazyGauge(SitePrefix + DataValidName, DataValidHelp, labels)), Values(labels))
      == Some(if Truthy(Get(site, "data_valid")) then 1.0 else 0.0)
    ensures var labels := Site.SiteLabels(siteId, info);
      Site.SocPercent(sb).Some? ==>
        Read(Apply(r, SiteBlock(siteId, site).writes), KeyOf(LazyGauge(SitePrefix + SocSuffix, SocHelp, labels)), Values(labels))
        == Site.SocPercent(sb)
  {
    var ws := SiteBlock(siteId, site).writes;
    var closing := ClosingWrites(Site.SiteLabels(siteId, info), site, sb);
    ShapedWrites(siteId, site, info, sb, sp);
    SiteSuffixesLayout();
    assert ws[10] == closing[0];
    SiteWriteReadsBack(r, siteId, site, 10);
    if Site.SocPercent(sb).Some? {
      assert ws[11] == closing[1];
      SiteWriteReadsBack(r, siteId, site, 11);
    }
  }

  // ---------------------------------------------------------------- devices

  /** `device_sn`, `site_id` ("" when missing), `type` ("unknown" when missing) and the name with its fallbacks. */
  function DeviceLabels(sn: string, dev: Dict): (l: Labels)
    ensures Keys(l) == ["device_sn", "site_id", "type", "name"]
    ensures Values(l) == [sn, LabelOr(dev, "site_id", ""), LabelOr(dev, "type", "unknown"), DeviceName(dev)]
  {
    [("device_sn", sn), ("site_id", LabelOr(dev, "site_id", "")), ("type", LabelOr(dev, "type", "unknown")),
     ("name", DeviceName(dev))]
  }

  const DeviceNames: seq<string> := ["device_sn", "site_id", "type", "name"]
  const InfoNames: seq<string> := ["device_sn", "site_id", "type", "name", "device_pn", "generation", "sw_version"]

  /** The device labels followed by part number, generation and firmware version, each "" when missing. */
  function InfoLabels(sn: string, dev: Dict): (l: Labels)
    ensures Keys(l) == InfoNames
    ensures Values(l) == Values(DeviceLabels(sn, dev))
                         + [LabelOr(dev, "device_pn", ""), LabelOr(dev, "generation", ""), LabelOr(dev, "sw_version", "")]
  {
    DeviceLabels(sn, dev)
      + [("device_pn", LabelOr(dev, "device_pn", "")), ("generation", LabelOr(dev, "generation", "")),
         ("sw_version", LabelOr(dev, "sw_version", ""))]
  }

  const InfoSuffix: string := "info"

  /** The info series of a device, set to 1. */
  function InfoWrite(sn: string, dev: Dict): Write {
    Write(LazyGauge(DevicePrefix + InfoSuffix, "Static info about the device (always 1)", InfoLabels(sn, dev)),
          InfoLabels(sn, dev), VInt(1))
  }

  /** Battery level, energy and the power fields. */
  const PowerMetrics: seq<Metric> := [
    Metric("battery_soc_percent", "Device battery state-of-charge (percent)", Key("battery_soc")),
    Metric("battery_energy_wh", "Device battery energy (Wh)", Key("battery_energy")),
    Metric("input_power_watts", "Device input (PV) power (W)", Key("input_power")),
    Metric("output_power_watts", "Device output (AC/home load) power (W)", Key("output_power")),
    Metric("battery_power_watts", "Battery net power (W). Positive = discharge to AC, negative = charge", Key("charging_power")),
    Metric("bat_charge_power_watts", "Battery charge power (W)", Key("bat_charge_power")) ]

  /** Inverter generation, micro-inverter power and its limit with the preset fallback. */
  const InverterMetrics: seq<Metric> := [
    Metric("ac_power_watts", "Inverter AC generation power (W)", Key("generate_power")),
    Metric("micro_inverter_power_watts", "Micro-inverter power (W)", Key("micro_inverter_power")),
    Metric("micro_inverter_power_limit_watts", "Micro-inverter power limit (W)", Fallback("micro_inverter_power_limit", "preset_inverter_limit")) ]

  /** Smart-meter grid import and export. */
  const MeterMetrics: seq<Metric> := [
    Metric("grid_import_power_watts", "Grid import power to home (W)", Key("grid_to_home_power")),
    Metric("grid_export_power_watts", "Photovoltaic export power to grid (W)", Key("photovoltaic_to_grid_power")) ]

  /** Smart-plug power and energy today. */
  const PlugMetrics: seq<Metric> := [
    Metric("plug_power_watts", "Smart plug current power (W)", Key("current_power")),
    Metric("energy_today_kwh", "Device energy today (kWh)", Key("energy_today")) ]

  /** PV strings 1 to 4. */
  const StringMetrics: seq<Metric> := [
    Metric("solar_power_1_watts", "PV string 1 power (W)", Key("solar_power_1")),
    Metric("solar_power_2_watts", "PV string 2 power (W)", Key("solar_power_2")),
    Metric("solar_power_3_watts", "PV string 3 power (W)", Key("solar_power_3")),
    Metric("solar_power_4_watts", "PV string 4 power (W)", Key("solar_power_4")) ]

  /** The AC port and other inputs. */
  const PortMetrics: seq<Metric> := [
    Metric("ac_port_power_watts", "AC port output power (W)", Key("ac_power")),
    Metric("other_input_power_watts", "Other input power (W)", Key("other_input_power")) ]

  /** The low limit, grid charging, heating and the output presets. */
  const PresetMetrics: seq<Metric> := [
    Metric("micro_inverter_low_power_limit_watts", "Micro-inverter low power limit (W)", Key("micro_inverter_low_power_limit")),
    Metric("grid_to_battery_power_watts", "Grid to battery power (W)", Key("grid_to_battery_power")),
    Metric("pei_heating_power_watts", "PEI heating power (W)", Key("pei_heating_power")),
    Metric("set_output_power_watts", "Device preset output power (W)", Key("set_output_power")),
    Metric("set_system_output_power_watts", "System preset output power (W)", Key("set_system_output_power")) ]

  /** Wi-Fi signal and RSSI, and the online and wired switches. */
  const ConnectivityMetrics: seq<Metric> := [
    Metric("wifi_signal_percent", "WiFi signal strength (percent)", Key("wifi_signal")),
    Metric("wifi_rssi_dbm", "WiFi RSSI (dBm)", Key("rssi")),
    Metric("wifi_online", "WiFi connectivity (1 online, 0 offline)", Switch("wifi_online")),
    Metric("wired_connected", "Wired connection present (1 yes, 0 no)", Switch("wired_connected")) ]

  /** Status codes and the validity, OTA and auto-upgrade switches. */
  const StatusMetrics: seq<Metric> := [
    Metric("status_code", "Device status code", Key("status")),
    Metric("charging_status_code", "Charging status code", Key("charging_status")),
    Metric("grid_status_code", "Grid status code", Key("grid_status")),
    Metric("data_valid", "Whether device data is valid (1) or not (0)", Switch("data_valid")),
    Metric("is_ota_update", "OTA update available (1) or not (0)", Switch("is_ota_update")),
    Metric("auto_upgrade", "Auto upgrade enabled (1) or disabled (0)", Switch("auto_upgrade")) ]

  /** Capacity and sub-package count. */
  const CapacityMetrics: seq<Metric> := [
    Metric("battery_capacity_wh", "Battery capacity (Wh)", Key("battery_capacity")),
    Metric("sub_package_num", "Sub package number", Key("sub_package_num")) ]

  /** No metric of the table is named like the info series. */
  predicate AvoidsInfo(ms: seq<Metric>) {
    forall i | 0 <= i < |ms| :: ms[i].suffix != InfoSuffix
  }

  lemma {:induction false} AvoidsInfoAppend(a: seq<Metric>, b: seq<Metric>)
    requires AvoidsInfo(a) && AvoidsInfo(b)
    ensures AvoidsInfo(a + b)
  {
    forall i | 0 <= i < |a + b| ensures (a + b)[i].suffix != InfoSuffix {
      if i >= |a| {
        assert (a + b)[i] == b[i - |a|];
      }
    }
  }

  /** The per-device metrics after the info series, in the script's order. */
  const DeviceMetrics: seq<Metric> :=
    PowerMetrics + InverterMetrics + MeterMetrics + PlugMetrics + StringMetrics + PortMetrics + PresetMetrics
    + ConnectivityMetrics
    + StatusMetrics + CapacityMetrics

  /** No device metric is named like the info series, so the info series is the only seven-label device gauge. */
  lemma {:induction false} DeviceMetricsAvoidInfo()
    ensures AvoidsInfo(DeviceMetrics)
  {
    assert AvoidsInfo(PowerMetrics) && AvoidsInfo(InverterMetrics) && AvoidsInfo(MeterMetrics);
    assert AvoidsInfo(PlugMetrics) && AvoidsInfo(StringMetrics) && AvoidsInfo(PortMetrics);
    assert AvoidsInfo(PresetMetrics) && AvoidsInfo(ConnectivityMetrics);
    assert AvoidsInfo(StatusMetrics) && AvoidsInfo(CapacityMetrics);
    AvoidsInfoAppend(PowerMetrics, InverterMetrics);
    AvoidsInfoAppend(PowerMetrics + InverterMetrics, MeterMetrics);
    AvoidsInfoAppend(PowerMetrics + InverterMetrics + MeterMetrics, PlugMetrics);
    AvoidsInfoAppend(PowerMetrics + InverterMetrics + MeterMetrics + PlugMetrics, StringMetrics);
    AvoidsInfoAppend(PowerMetrics + InverterMetrics + MeterMetrics + PlugMetrics + StringMetrics, PortMetrics);
    AvoidsInfoAppend(PowerMetrics + InverterMetrics + MeterMetrics + PlugMetrics + StringMetrics + PortMetrics, PresetMetrics);
    AvoidsInfoAppend(PowerMetrics + InverterMetrics + MeterMetrics + PlugMetrics + StringMetrics + PortMetrics + PresetMetrics,
                     ConnectivityMetrics);
    AvoidsInfoAppend(PowerMetrics + InverterMetrics + MeterMetrics + PlugMetrics + StringMetrics + PortMetrics + PresetMetrics
                     + ConnectivityMetrics, StatusMetrics);
    AvoidsInfoAppend(PowerMetrics + InverterMetrics + MeterMetrics + PlugMetrics + StringMetrics + PortMetrics + PresetMetrics
                     + ConnectivityMetrics + StatusMetrics, CapacityMetrics);
  }

  /** One device: the info write, then every device metric under the device labels. With writes through the corrected normaliser, the block never raises. */
  function DeviceBlock(sn: string, dev: Dict): seq<Write> {
    [InfoWrite(sn, dev)] + MetricsWrites(DevicePrefix, DeviceLabels(sn, dev), dev, DeviceMetrics)
  }

  function Devices(devices: seq<(string, Dict)>): (ws: seq<Write>)
    decreases |devices|
  {
    if |devices| == 0 then [] else DeviceBlock(devices[0].0, devices[0].1) + Devices(devices[1..])
  }

  /**
   After a device block the info series of the device reads 1: every other
   write of the block has four labels and the info series has seven.
   */
  lemma {:induction false} InfoReadsOne(r: Registry, sn: string, dev: Dict)
    ensures Read(Apply(r, DeviceBlock(sn, dev)), KeyOf(InfoWrite(sn, dev).gauge), Values(InfoLabels(sn, dev))) == Some(1.0)
  {
    var ws := DeviceBlock(sn, dev);
    forall j | 0 <= j < |ws| && KeyOf(ws[j].gauge) == KeyOf(ws[0].gauge) && Values(ws[j].labels) == Values(ws[0].labels)
      ensures AsFloat(ws[j].raw) == AsFloat(ws[0].raw)
    {
      if j > 0 {
        assert false;
      }
    }
    AgreeingWritesReadBack(r, ws, 0);
  }

  // ---------------------------------------------------------------- cycles

  /** A cycle of the script: refresh, then the sites, then (unless a site raised) the devices. */
  function Run(refreshed: bool, snap: Cycle.Snapshot): (e: Emit)
    ensures !refreshed ==> e.raised && e.writes == []
    ensures refreshed ==> (e.raised <==> exists i | 0 <= i < |snap.sites| :: !SiteShaped(snap.sites[i].1))
    ensures refreshed && e.raised ==> e.writes == Sites(snap.sites).writes
    ensures !e.raised ==> e.writes == Sites(snap.sites).writes + Devices(snap.devices)
  {
    if !refreshed then Raise
    else Then(Sites(snap.sites), Done(Devices(snap.devices)))
  }

  /** Whether a name starts with the given family prefix. */
  predicate InFamily(name: string, prefix: string) {
    |prefix| <= |name| && name[..|prefix|] == prefix
  }

  const SiteNames: seq<string> := ["site_id", "site_name"]

  /**
   The gauge keys the script can ever create: site metrics under the site
   label names, device metrics other than the info series under the device
   label names, and the info series under the info label names.
   */
  predicate ScriptKey(k: GaugeKey) {
    || (InFamily(k.name, SitePrefix) && k.labelNames == SiteNames)
    || (InFamily(k.name, DevicePrefix) && k.name != DevicePrefix + InfoSuffix && k.labelNames == DeviceNames)
    || k == GaugeKey(DevicePrefix + InfoSuffix, InfoNames)
  }

  /** No metric name is cached under two tuples of label names. */
  predicate OneLabelSetPerName(ks: set<GaugeKey>) {
    forall a, b | a in ks && b in ks && a.name == b.name :: a.labelNames == b.labelNames
  }

  /** Script keys never share a name across label tuples: the families differ in their seventh character. */
  lemma {:induction false} ScriptKeysAgree(ks: set<GaugeKey>)
    requires forall k | k in ks :: ScriptKey(k)
    ensures OneLabelSetPerName(ks)
  {
    forall a, b | a in ks && b in ks && a.name == b.name ensures a.labelNames == b.labelNames {
      assert ScriptKey(a) && ScriptKey(b);
      if InFamily(a.name, SitePrefix) {
        assert a.name[6] == SitePrefix[6];
      } else {
        assert a.name[6] == DevicePrefix[6];
      }
      if InFamily(b.name, SitePrefix) {
        assert b.name[6] == SitePrefix[6];
      } else {
        assert b.name[6] == DevicePrefix[6];
      }
    }
  }

  /** The writes of a script key only ever name script keys. */
  predicate Scripted(ws: seq<Write>) {
    forall w | w in ws :: ScriptKey(KeyOf(w.gauge))
  }

  lemma {:induction false} ScriptedAppend(a: seq<Write>, b: seq<Write>)
    requires Scripted(a) && Scripted(b)
    ensures Scripted(a + b)
  {
    forall w | w in a + b ensures ScriptKey(KeyOf(w.gauge)) {
      assert w in a || w in b;
    }
  }

  lemma {:induction false} SiteTableScripted(labels: Labels, d: Dict, ms: seq<Metric>)
    requires Keys(labels) == SiteNames
    ensures Scripted(MetricsWrites(SitePrefix, labels, d, ms))
  {
    var ws := MetricsWrites(SitePrefix, labels, d, ms);
    forall w | w in ws ensures ScriptKey(KeyOf(w.gauge)) {
      var i :| 0 <= i < |ws| && ws[i] == w;
      assert (SitePrefix + ms[i].suffix)[..|SitePrefix|] == SitePrefix;
    }
  }

  lemma {:induction false} DeviceTableScripted(labels: Labels, d: Dict, ms: seq<Metric>)
    requires Keys(labels) == DeviceNames && AvoidsInfo(ms)
    ensures Scripted(MetricsWrites(DevicePrefix, labels, d, ms))
  {
    var ws := MetricsWrites(DevicePrefix, labels, d, ms);
    forall w | w in ws ensures ScriptKey(KeyOf(w.gauge)) {
      var i :| 0 <= i < |ws| && ws[i] == w;
      assert (DevicePrefix + ms[i].suffix)[..|DevicePrefix|] == DevicePrefix;
      assert (DevicePrefix + ms[i].suffix)[|DevicePrefix|..] == ms[i].suffix;
    }
  }

  lemma {:induction false} SiteBlockScripted(siteId: string, site: Dict)
    ensures Scripted(SiteBlock(siteId, site).writes)
  {
    match DictOrEmpty(Get(site, "site_info"))
    case None =>
    case Some(info) =>
      var labels := Site.SiteLabels(siteId, info);
      SiteTableScripted(labels, site, [HomeLoad]);
      match DictOrEmpty(Get(site, "solarbank_info"))
      case None =>
      case Some(sb) =>
        SiteTableScripted(labels, sb, SolarbankMetrics);
        match DictOrEmpty(Get(site, "smart_plug_info"))
        case None =>
          ScriptedAppend(MetricsWrites(SitePrefix, labels, site, [HomeLoad]), MetricsWrites(SitePrefix, labels, sb, SolarbankMetrics));
        case Some(sp) =>
          SiteTableScripted(labels, sp, [PlugTotal]);
          SiteTableScripted(labels, site, LoadMetrics);
          var closing := ClosingWrites(labels, site, sb);
          assert Scripted(closing) by {
            forall w | w in closing ensures ScriptKey(KeyOf(w.gauge)) {
              assert (SitePrefix + DataValidName)[..|SitePrefix|] == SitePrefix;
              assert (SitePrefix + "total_battery_soc_percent")[..|SitePrefix|] == SitePrefix;
            }
          }
          var home := MetricsWrites(SitePrefix, labels, site, [HomeLoad]);
          var sbw := MetricsWrites(SitePrefix, labels, sb, SolarbankMetrics);
          var plug := MetricsWrites(SitePrefix, labels, sp, [PlugTotal]);
          var loads := MetricsWrites(SitePrefix, labels, site, LoadMetrics);
          assert home == [MetricWrite(SitePrefix, labels, site, HomeLoad)];
          assert plug == [MetricWrite(SitePrefix, labels, sp, PlugTotal)];
          ScriptedAppend(plug, loads);
          ScriptedAppend(plug + loads, closing);
          ScriptedAppend(sbw, plug + loads + closing);
          ScriptedAppend(home, sbw + (plug + loads + closing));
          assert SiteBlock(siteId, site).writes == home + (sbw + (plug + loads + closing));
  }

  lemma {:induction false} DeviceBlockScripted(sn: string, dev: Dict)
    ensures Scripted(DeviceBlock(sn, dev))
  {
    DeviceMetricsAvoidInfo();
    DeviceTableScripted(DeviceLabels(sn, dev), dev, DeviceMetrics);
    ScriptedAppend([InfoWrite(sn, dev)], MetricsWrites(DevicePrefix, DeviceLabels(sn, dev), dev, DeviceMetrics));
  }

  lemma {:induction false} DevicesScripted(devices: seq<(string, Dict)>)
    ensures Scripted(Devices(devices))
    decreases |devices|
  {
    if |devices| > 0 {
      DeviceBlockScripted(devices[0].0, devices[0].1);
      DevicesScripted(devices[1..]);
      ScriptedAppend(DeviceBlock(devices[0].0, devices[0].1), Devices(devices[1..]));
    }
  }

  lemma {:induction false} RunScripted(refreshed: bool, snap: Cycle.Snapshot)
    ensures Scripted(Run(refreshed, snap).writes)
  {
    if refreshed {
      var es := SiteBlocks(snap.sites);
      assert Sites(snap.sites) == Chain(es);
      forall w | w in Chain(es).writes ensures ScriptKey(KeyOf(w.gauge)) {
        ChainWrites(es, w);
        var i :| 0 <= i < |es| && w in es[i].writes;
        SiteBlockScripted(snap.sites[i].0, snap.sites[i].1);
      }
      DevicesScripted(snap.devices);
      if !Chain(es).raised {
        ScriptedAppend(Chain(es).writes, Devices(snap.devices));
      }
    }
  }

  /** One round of the script's polling loop: the refresh outcome and the snapshot it reads. */
  function RunRound(round: (bool, Cycle.Snapshot)): Emit {
    Run(round.0, round.1)
  }

  /**
   Starting from a cache that holds only script keys (the empty cache at
   start-up among them), any number of cycles over any snapshots leaves only
   script keys, so no metric name is ever cached under two label tuples.
   */
  lemma {:induction false} CyclesKeepOneLabelSet(r: Registry, runs: seq<(bool, Cycle.Snapshot)>, interval: int)
    requires forall k | k in r :: ScriptKey(k)
    ensures forall k | k in Schedule.Loop(r, runs, RunRound, interval).0 :: ScriptKey(k)
    ensures OneLabelSetPerName(Schedule.Loop(r, runs, RunRound, interval).0.Keys)
    decreases |runs|
  {
    if |runs| == 0 {
      ScriptKeysAgree(r.Keys);
    } else {
      var ws := Run(runs[0].0, runs[0].1).writes;
      RunScripted(runs[0].0, runs[0].1);
      ApplyKeys(r, ws);
      forall k | k in Apply(r, ws) ensures ScriptKey(k) {
        if k !in r {
          var i :| 0 <= i < |ws| && AsFloat(ws[i].raw).Some? && KeyOf(ws[i].gauge) == k;
          assert ws[i] in ws;
        }
      }
      CyclesKeepOneLabelSet(Apply(r, ws), runs[1..], interval);
    }
  }
}
