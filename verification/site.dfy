/**
 The site block of the packaged exporter's polling cycle: for one site of the
 cloud snapshot, the writes it makes to the declared site gauges, and whether
 a malformed part of the snapshot raises before the block is done.

 Each nested part is read through `x or {}` (or `x or []`) and then `.get`,
 `.items()` or iteration, so a part that is falsy reads as empty and a part
 that is truthy but of the wrong shape raises.
 */
module Site {
  import opened Optional
  import opened Json
  import opened Normalize
  import opened Registry
  import opened Extract
  import opened Gauges

  /** A value that `v or {}` turns into a mapping. */
  predicate MappingOrFalsy(v: Value) {
    !Truthy(v) || v.VMap?
  }

  /** A value that `v or []` turns into a list of mappings. */
  predicate MappingListOrFalsy(v: Value) {
    !Truthy(v) || (v.VList? && forall i | 0 <= i < |v.items| :: v.items[i].VMap?)
  }

  lemma {:induction false} DictOrEmptyShape(v: Value)
    ensures DictOrEmpty(v).Some? <==> MappingOrFalsy(v)
  {
  }

  /** The shape the site block needs to run to its end. */
  predicate WellShaped(site: Dict) {
    && MappingOrFalsy(Get(site, "site_info"))
    && MappingOrFalsy(Get(site, "solarbank_info"))
    && TailShaped(site)
  }

  /** The shape the statistics, price and energy parts need. */
  predicate TailShaped(site: Dict) {
    && MappingListOrFalsy(Get(site, "statistics"))
    && MappingOrFalsy(Get(site, "site_details"))
    && MappingOrFalsy(Get(site, "energy_details"))
    && (Get(site, "energy_details").VMap? ==> MappingOrFalsy(Get(Get(site, "energy_details").entries, "today")))
  }

  /** `{"site_id": str(site_id), "site_name": str(site_name or "Unknown")}`. */
  function SiteLabels(siteId: string, info: Dict): (l: Labels)
    ensures Keys(l) == ["site_id", "site_name"]
    ensures Values(l)[0] == siteId && |Values(l)[1]| > 0
    ensures Truthy(Get(info, "site_name")) ==> Values(l)[1] == Str(Get(info, "site_name"))
    ensures !Truthy(Get(info, "site_name")) ==> Values(l)[1] == "Unknown"
  {
    [("site_id", siteId), ("site_name", LabelOr(info, "site_name", "Unknown"))]
  }

  /** The `type` entries of the site power gauge, read from the site and its Solarbank info. */
  function PowerEntries(site: Dict, sb: Dict): seq<(string, Value)> {
    [ ("home_load", Get(site, "home_load_power")),
      ("to_home_load", Get(sb, "to_home_load")),
      ("total_pv", Get(sb, "total_photovoltaic_power")),
      ("total_output", Get(sb, "total_output_power")),
      ("total_charging", Get(sb, "total_charging_power")),
      ("battery_discharge", Get(sb, "battery_discharge_power")),
      ("other_loads", Get(site, "other_loads_power")),
      ("retain_load_preset", Get(site, "retain_load")) ]
  }

  /**
   The total state of charge, reported as a fraction, as a percentage; absent
   when it does not normalise.
   */
  function SocPercent(sb: Dict): (p: Option<real>)
    ensures p.Some? <==> AsFloat(Get(sb, "total_battery_power")).Some?
    ensures p.Some? ==> p.value == AsFloat(Get(sb, "total_battery_power")).value * 100.0
  {
    var t := Get(sb, "total_battery_power");
    if t != VNone then
      match AsFloat(t)
      case Some(f) => Some(f * 100.0)
      case None => None
    else None
  }

  /** The percentage is written only when there is one. */
  function SocWrites(labels: Labels, sb: Dict): (ws: seq<Write>)
    ensures ws != [] <==> SocPercent(sb).Some?
    ensures ws != [] ==> ws == [Write(SiteSoc, labels, VReal(SocPercent(sb).value))]
  {
    match SocPercent(sb)
    case Some(p) => [Write(SiteSoc, labels, VReal(p))]
    case None => []
  }

  /** `str(stat.get("unit") or "").lower() == "wh"`. */
  predicate InWattHours(stat: Dict) {
    AsciiLower(LabelOr(stat, "unit", "")) == "wh"
  }

  /** The energy produced in kWh: a total in Wh is divided by 1000, any other unit is kept. */
  function ProducedKwh(f: real, stat: Dict): (x: real)
    ensures InWattHours(stat) ==> x * 1000.0 == f
    ensures !InWattHours(stat) ==> x == f
  {
    if InWattHours(stat) then f / 1000.0 else f
  }

  /**
   The reading of one statistics item: type "1" is the energy produced, in
   kWh; type "3" is the savings, unconverted; any other type, and a total
   that does not normalise (None among them), gives nothing.
   */
  function StatReading(stat: Dict): (r: Option<(Descriptor, real)>)
    ensures r.Some? <==>
      (Get(stat, "type") == VStr("1") || Get(stat, "type") == VStr("3")) && AsFloat(Get(stat, "total")).Some?
    ensures r.Some? && Get(stat, "type") == VStr("1") ==>
      r.value == (SiteEnergyProduced, ProducedKwh(AsFloat(Get(stat, "total")).value, stat))
    ensures r.Some? && Get(stat, "type") == VStr("3") ==> r.value == (SiteSavings, AsFloat(Get(stat, "total")).value)
  {
    var ty := Get(stat, "type");
    if ty != VStr("1") && ty != VStr("3") then None
    else
      match AsFloat(Get(stat, "total"))
      case None => None
      case Some(f) => if ty == VStr("1") then Some((SiteEnergyProduced, ProducedKwh(f, stat))) else Some((SiteSavings, f))
  }

  function StatWrites(labels: Labels, stat: Dict): (ws: seq<Write>)
    ensures ws != [] <==> StatReading(stat).Some?
    ensures ws != [] ==> ws == [Write(StatReading(stat).value.0, labels, VReal(StatReading(stat).value.1))]
  {
    match StatReading(stat)
    case Some((d, x)) => [Write(d, labels, VReal(x))]
    case None => []
  }

  /** The statistics items in order; the first item that is not a mapping raises. */
  function StatItems(labels: Labels, items: seq<Value>): (e: Emit)
    ensures e.raised <==> exists i | 0 <= i < |items| :: !items[i].VMap?
    ensures forall w | w in e.writes :: w.labels == labels && (w.gauge == SiteEnergyProduced || w.gauge == SiteSavings)
    decreases |items|
  {
    if |items| == 0 then Done([])
    else if !items[0].VMap? then Raise
    else
      var rest := StatItems(labels, items[1..]);
      assert forall i | 1 <= i < |items| :: items[i] == items[1..][i - 1];
      Then(Done(StatWrites(labels, items[0].entries)), rest)
  }

  /** `for stat in site.get("statistics") or []`. */
  function Statistics(labels: Labels, stats: Value): (e: Emit)
    ensures e.raised <==> !MappingListOrFalsy(stats)
    ensures forall w | w in e.writes :: w.labels == labels && (w.gauge == SiteEnergyProduced || w.gauge == SiteSavings)
    ensures !Truthy(stats) ==> e.writes == []
    ensures stats.VList? ==> e == StatItems(labels, stats.items)
  {
    if !Truthy(stats) then Done([])
    else if !stats.VList? then Raise
    else StatItems(labels, stats.items)
  }

  /** The write a statistics reading makes: its gauge, the site labels and its value. */
  function ReadingWrite(labels: Labels, rd: (Descriptor, real)): Write {
    Write(rd.0, labels, VReal(rd.1))
  }

  /** The items up to and including item i are mappings, so the loop reaches item i and reads it. */
  predicate MappingsThrough(items: seq<Value>, i: int) {
    forall j | 0 <= j <= i && j < |items| :: items[j].VMap?
  }

  /**
   The statistics loop writes exactly the readings of the items it reaches:
   every write is the reading of a mapping item before the first item that is
   not a mapping, and every such item with a reading is written.
   */
  lemma {:induction false} StatItemsExact(labels: Labels, items: seq<Value>)
    ensures forall w | w in StatItems(labels, items).writes :: exists i | 0 <= i < |items| ::
      items[i].VMap? && MappingsThrough(items, i) && StatReading(items[i].entries).Some?
      && w == ReadingWrite(labels, StatReading(items[i].entries).value)
    ensures forall i | 0 <= i < |items| && items[i].VMap? && MappingsThrough(items, i) && StatReading(items[i].entries).Some? ::
      ReadingWrite(labels, StatReading(items[i].entries).value) in StatItems(labels, items).writes
    decreases |items|
  {
    if |items| > 0 && items[0].VMap? {
      var tail := items[1..];
      StatItemsExact(labels, tail);
      var head := StatWrites(labels, items[0].entries);
      var ws := StatItems(labels, items).writes;
      assert ws == head + StatItems(labels, tail).writes;
      forall w | w in ws ensures exists i | 0 <= i < |items| ::
        items[i].VMap? && MappingsThrough(items, i) && StatReading(items[i].entries).Some?
        && w == ReadingWrite(labels, StatReading(items[i].entries).value)
      {
        if w in head {
          assert MappingsThrough(items, 0);
        } else {
          var i :| 0 <= i < |tail| && tail[i].VMap? && MappingsThrough(tail, i) && StatReading(tail[i].entries).Some?
            && w == ReadingWrite(labels, StatReading(tail[i].entries).value);
          assert items[i + 1] == tail[i];
          assert MappingsThrough(items, i + 1) by {
            forall j | 0 <= j <= i + 1 && j < |items| ensures items[j].VMap? {
              if j > 0 {
                assert items[j] == tail[j - 1];
              }
            }
          }
        }
      }
      forall i | 0 <= i < |items| && items[i].VMap? && MappingsThrough(items, i) && StatReading(items[i].entries).Some?
        ensures ReadingWrite(labels, StatReading(items[i].entries).value) in ws
      {
        if i > 0 {
          assert tail[i - 1] == items[i];
          assert MappingsThrough(tail, i - 1) by {
            forall j | 0 <= j <= i - 1 && j < |tail| ensures tail[j].VMap? {
              assert tail[j] == items[j + 1];
            }
          }
        }
      }
    }
  }

  /** The price labels: the site labels, then `price_type` (default "fixed") and `unit` (default ""). */
  function PriceLabels(labels: Labels, details: Dict): (l: Labels)
    ensures Keys(l) == Keys(labels) + ["price_type", "unit"]
    ensures Values(l) == Values(labels) + [LabelOr(details, "price_type", "fixed"), LabelOr(details, "site_price_unit", "")]
  {
    Extend(Extend(labels, "price_type", LabelOr(details, "price_type", "fixed")), "unit", LabelOr(details, "site_price_unit", ""))
  }

  /** The price is written, raw, whenever the site details hold one that is not None. */
  function PriceBlock(labels: Labels, details: Value): (e: Emit)
    ensures e.raised <==> !MappingOrFalsy(details)
    ensures !e.raised ==> (e.writes != [] <==> details.VMap? && Get(details.entries, "price") != VNone)
    ensures !e.raised && e.writes != [] ==>
      e.writes == [Write(SitePrice, PriceLabels(labels, details.entries), Get(details.entries, "price"))]
  {
    match DictOrEmpty(details)
    case None => Raise
    case Some(d) =>
      var price := Get(d, "price");
      if price != VNone then Done([Write(SitePrice, PriceLabels(labels, d), price)]) else Done([])
  }

  /** The `energy_today` keys the site block skips. */
  predicate Skipped(key: string) {
    key == "date" || Contains(key, "smartplug")
  }

  /** Percentages have their own gauge; every other key is an energy in kWh. */
  function EnergyGauge(key: string): (d: Descriptor)
    ensures d == SiteEnergyTodayPercent <==> Contains(key, "percentage")
    ensures d == SiteEnergyToday <==> !Contains(key, "percentage")
  {
    if Contains(key, "percentage") then SiteEnergyTodayPercent else SiteEnergyToday
  }

  function EnergyWrite(labels: Labels, key: string, f: real): Write {
    Write(EnergyGauge(key), Extend(labels, "type", key), VReal(f))
  }

  /**
   The `energy_today` loop: every write comes from a key that is not skipped
   and whose value normalises, and every such key is written, with the key as
   its `type` label and the normalised value.
   */
  function EnergyWrites(labels: Labels, today: Dict): (ws: seq<Write>)
    ensures forall w | w in ws :: exists e | e in today ::
      !Skipped(e.0) && AsFloat(e.1).Some? && w == EnergyWrite(labels, e.0, AsFloat(e.1).value)
    ensures forall e | e in today && !Skipped(e.0) && AsFloat(e.1).Some? ::
      EnergyWrite(labels, e.0, AsFloat(e.1).value) in ws
    decreases |today|
  {
    if |today| == 0 then []
    else
      var (key, value) := today[0];
      var rest := EnergyWrites(labels, today[1..]);
      assert today == [today[0]] + today[1..];
      if Skipped(key) then rest
      else if value != VNone && AsFloat(value).Some? then [EnergyWrite(labels, key, AsFloat(value).value)] + rest
      else rest
  }

  /** `(site.get("energy_details") or {}).get("today") or {}`, then its items. */
  function EnergyToday(labels: Labels, details: Value): (e: Emit)
    ensures e.raised <==> !MappingOrFalsy(details) || (details.VMap? && !MappingOrFalsy(Get(details.entries, "today")))
    ensures !e.raised && details.VMap? && Get(details.entries, "today").VMap? ==>
      e.writes == EnergyWrites(labels, Get(details.entries, "today").entries)
    ensures !e.raised && !(details.VMap? && Get(details.entries, "today").VMap?) ==> e.writes == []
  {
    match DictOrEmpty(details)
    case None => Raise
    case Some(ed) =>
      match DictOrEmpty(Get(ed, "today"))
      case None => Raise
      case Some(today) => Done(EnergyWrites(labels, today))
  }

  /** The writes made before the statistics loop, which cannot raise once the Solarbank info is a mapping. */
  function FixedWrites(labels: Labels, site: Dict, sb: Dict): (ws: seq<Write>)
    ensures Write(SiteDataValid, labels, Bit(Get(site, "data_valid"))) in ws
  {
    Categorical(SitePower, labels, "type", PowerEntries(site, sb))
      + [Write(SiteDataValid, labels, Bit(Get(site, "data_valid")))]
      + SocWrites(labels, sb)
  }

  /**
   One site: it raises exactly when the site is not well shaped. A malformed
   site info or Solarbank info raises before any write; otherwise the fixed
   writes are made first and stay even when a later part raises.
   */
  function SiteBlock(siteId: string, site: Dict): (e: Emit)
    ensures e.raised <==> !WellShaped(site)
    ensures !MappingOrFalsy(Get(site, "site_info")) || !MappingOrFalsy(Get(site, "solarbank_info")) ==> e.writes == []
    ensures MappingOrFalsy(Get(site, "site_info")) && MappingOrFalsy(Get(site, "solarbank_info")) ==>
      var labels := SiteLabels(siteId, DictOrEmpty(Get(site, "site_info")).value);
      e.writes == FixedWrites(labels, site, DictOrEmpty(Get(site, "solarbank_info")).value) + TailBlock(labels, site).writes
  {
    match DictOrEmpty(Get(site, "site_info"))
    case None => Raise
    case Some(info) =>
      var labels := SiteLabels(siteId, info);
      match DictOrEmpty(Get(site, "solarbank_info"))
      case None => Raise
      case Some(sb) =>
        Then(Done(FixedWrites(labels, site, sb)), TailBlock(labels, site))
  }

  /** The statistics, price and energy parts, in that order; each runs only if the one before did not raise. */
  function TailBlock(labels: Labels, site: Dict): (e: Emit)
    ensures e.raised <==> !TailShaped(site)
  {
    Then(Statistics(labels, Get(site, "statistics")),
      Then(PriceBlock(labels, Get(site, "site_details")),
        EnergyToday(labels, Get(site, "energy_details"))))
  }

  /**
   Once the site info and the Solarbank info are mappings, the data-valid
   flag is always written, as 0 when it is missing or falsy, whatever the
   later parts of the site do.
   */
  lemma {:induction false} DataValidAlwaysWritten(siteId: string, site: Dict)
    requires MappingOrFalsy(Get(site, "site_info")) && MappingOrFalsy(Get(site, "solarbank_info"))
    ensures Write(SiteDataValid, SiteLabels(siteId, DictOrEmpty(Get(site, "site_info")).value), Bit(Get(site, "data_valid")))
      in SiteBlock(siteId, site).writes
  {
    var info := DictOrEmpty(Get(site, "site_info")).value;
    var sb := DictOrEmpty(Get(site, "solarbank_info")).value;
    var labels := SiteLabels(siteId, info);
    var fixed := FixedWrites(labels, site, sb);
    var tail := TailBlock(labels, site);
    assert SiteBlock(siteId, site) == Then(Done(fixed), tail);
    assert fixed <= Then(Done(fixed), tail).writes;
  }

  lemma {:induction false} TailWritesTailGauges(labels: Labels, site: Dict)
    ensures forall w | w in TailBlock(labels, site).writes :: w.gauge in TailGauges
  {
    var stats := Statistics(labels, Get(site, "statistics"));
    var price := PriceBlock(labels, Get(site, "site_details"));
    var energy := EnergyToday(labels, Get(site, "energy_details"));
    var details := Get(site, "energy_details");
    forall w | w in energy.writes ensures w.gauge in TailGauges {
      var today := Get(details.entries, "today").entries;
      var e :| e in today && !Skipped(e.0) && AsFloat(e.1).Some? && w == EnergyWrite(labels, e.0, AsFloat(e.1).value);
    }
  }

  /** The statistics, price and energy parts never touch the power, validity or state-of-charge series. */
  lemma {:induction false} TailAvoidsFixedKeys(labels: Labels, site: Dict)
    ensures forall x | x in TailBlock(labels, site).writes :: KeyOf(x.gauge) != KeyOf(SiteDataValid) && KeyOf(x.gauge) != KeyOf(SiteSoc)
    ensures forall x | x in TailBlock(labels, site).writes :: KeyOf(x.gauge) != KeyOf(SitePower)
  {
    TailWritesTailGauges(labels, site);
    SiteKeysDistinct();
  }

  /**
   A write that is alone on its gauge among the power, validity and
   state-of-charge writes and a tail that avoids that gauge is read back.
   */
  lemma {:induction false} FixedWriteAlone(r: Registry, power: seq<Write>, valid: Write, soc: seq<Write>, tail: seq<Write>, w: Write)
    requires forall x | x in power :: x.gauge == SitePower
    requires valid.gauge == SiteDataValid
    requires forall x | x in soc :: x.gauge == SiteSoc
    requires w == valid || (soc == [w] && w.gauge == SiteSoc)
    requires forall x | x in tail :: KeyOf(x.gauge) != KeyOf(w.gauge)
    requires AsFloat(w.raw).Some?
    ensures Read(Apply(r, power + [valid] + soc + tail), KeyOf(w.gauge), Values(w.labels)) == AsFloat(w.raw)
  {
    SiteKeysDistinct();
    if w == valid {
      assert power + [valid] + soc + tail == power + [valid] + (soc + tail);
      SoleWriteReadsBack(r, power, valid, soc + tail);
    } else {
      assert power + [valid] + soc + tail == (power + [valid]) + [w] + tail;
      SoleWriteReadsBack(r, power + [valid], w, tail);
    }
  }

  /**
   Whatever follows the fixed writes, as long as it leaves the validity
   series alone, the registry then holds the validity flag the fixed writes
   made.
   */
  lemma {:induction false} ValidReadsBack(r: Registry, labels: Labels, site: Dict, sb: Dict, tail: seq<Write>)
    requires forall x | x in tail :: KeyOf(x.gauge) != KeyOf(SiteDataValid)
    ensures Read(Apply(r, FixedWrites(labels, site, sb) + tail), KeyOf(SiteDataValid), Values(labels))
            == Some(if Truthy(Get(site, "data_valid")) then 1.0 else 0.0)
  {
    var power := Categorical(SitePower, labels, "type", PowerEntries(site, sb));
    var valid := Write(SiteDataValid, labels, Bit(Get(site, "data_valid")));
    var soc := SocWrites(labels, sb);
    assert FixedWrites(labels, site, sb) + tail == power + [valid] + soc + tail;
    FixedWriteAlone(r, power, valid, soc, tail, valid);
  }

  /**
   Whatever follows the fixed writes, as long as it leaves the state-of-charge
   series alone, the registry then holds the state of charge the fixed writes
   made, when the fraction normalises.
   */
  lemma {:induction false} SocReadsBack(r: Registry, labels: Labels, site: Dict, sb: Dict, tail: seq<Write>)
    requires forall x | x in tail :: KeyOf(x.gauge) != KeyOf(SiteSoc)
    requires SocPercent(sb).Some?
    ensures Read(Apply(r, FixedWrites(labels, site, sb) + tail), KeyOf(SiteSoc), Values(labels)) == SocPercent(sb)
  {
    var power := Categorical(SitePower, labels, "type", PowerEntries(site, sb));
    var valid := Write(SiteDataValid, labels, Bit(Get(site, "data_valid")));
    var soc := SocWrites(labels, sb);
    assert FixedWrites(labels, site, sb) + tail == power + [valid] + soc + tail;
    FixedWriteAlone(r, power, valid, soc, tail, soc[0]);
  }

  /** The power `type` labels are pairwise different. */
  lemma {:induction false} PowerTypesDistinct(site: Dict, sb: Dict)
    ensures DistinctEntryKeys(PowerEntries(site, sb))
  {
  }

  /**
   Whatever follows the power writes, as long as it leaves the power gauge
   alone, every power series reads afterwards what the power writes left.
   */
  lemma {:induction false} PowerKept(r: Registry, labels: Labels, site: Dict, sb: Dict, tail: seq<Write>, s: seq<string>)
    requires forall x | x in tail :: KeyOf(x.gauge) != KeyOf(SitePower)
    ensures Read(Apply(r, FixedWrites(labels, site, sb) + tail), KeyOf(SitePower), s)
            == Read(Apply(r, Categorical(SitePower, labels, "type", PowerEntries(site, sb))), KeyOf(SitePower), s)
  {
    var power := Categorical(SitePower, labels, "type", PowerEntries(site, sb));
    var soc := SocWrites(labels, sb);
    var rest := [Write(SiteDataValid, labels, Bit(Get(site, "data_valid")))] + soc + tail;
    SiteKeysDistinct();
    assert forall x | x in soc :: x.gauge == SiteSoc;
    assert forall x | x in rest :: KeyOf(x.gauge) != KeyOf(SitePower);
    assert FixedWrites(labels, site, sb) + tail == power + rest;
    ApplyAppend(r, power, rest);
    OtherGaugesKeepRead(Apply(r, power), rest, KeyOf(SitePower), s);
  }

  /**
   Whatever follows the fixed writes, as long as it leaves the power gauge
   alone, each power reading that is present and normalises is then held
   under the site labels and its own `type`.
   */
  lemma {:induction false} PowerReadsBack(r: Registry, labels: Labels, site: Dict, sb: Dict, tail: seq<Write>, t: nat)
    requires forall x | x in tail :: KeyOf(x.gauge) != KeyOf(SitePower)
    requires t < |PowerEntries(site, sb)| && AsFloat(PowerEntries(site, sb)[t].1).Some?
    ensures Read(Apply(r, FixedWrites(labels, site, sb) + tail), KeyOf(SitePower), Values(labels) + [PowerEntries(site, sb)[t].0])
            == AsFloat(PowerEntries(site, sb)[t].1)
  {
    var entries := PowerEntries(site, sb);
    PowerKept(r, labels, site, sb, tail, Values(labels) + [entries[t].0]);
    PowerTypesDistinct(site, sb);
    CategoricalReadsBack(r, SitePower, labels, "type", entries, t);
  }

  /**
   After a site whose site info and Solarbank info are mappings, the registry
   holds the site's validity flag (1 when `data_valid` is truthy, else 0) and,
   when the battery fraction normalises, the state of charge as a percentage,
   under the site's labels, whatever the later parts of the site write or raise.
   */
  lemma {:induction false} SiteReadsBack(r: Registry, siteId: string, site: Dict)
    requires MappingOrFalsy(Get(site, "site_info")) && MappingOrFalsy(Get(site, "solarbank_info"))
    ensures Read(Apply(r, SiteBlock(siteId, site).writes), KeyOf(SiteDataValid),
                 Values(SiteLabels(siteId, DictOrEmpty(Get(site, "site_info")).value)))
            == Some(if Truthy(Get(site, "data_valid")) then 1.0 else 0.0)
    ensures SocPercent(DictOrEmpty(Get(site, "solarbank_info")).value).Some? ==>
      Read(Apply(r, SiteBlock(siteId, site).writes), KeyOf(SiteSoc),
           Values(SiteLabels(siteId, DictOrEmpty(Get(site, "site_info")).value)))
      == SocPercent(DictOrEmpty(Get(site, "solarbank_info")).value)
  {
    var labels := SiteLabels(siteId, DictOrEmpty(Get(site, "site_info")).value);
    var sb := DictOrEmpty(Get(site, "solarbank_info")).value;
    TailAvoidsFixedKeys(labels, site);
    ValidReadsBack(r, labels, site, sb, TailBlock(labels, site).writes);
    if SocPercent(sb).Some? {
      SocReadsBack(r, labels, site, sb, TailBlock(labels, site).writes);
    }
  }

  /**
   After a site whose site info and Solarbank info are mappings, each power
   reading of the site that is present and normalises is held under the site
   labels and its `type` (`home_load`, `to_home_load`, `total_pv`, ...).
   */
  lemma {:induction false} SitePowerReadsBack(r: Registry, siteId: string, site: Dict, t: nat)
    requires MappingOrFalsy(Get(site, "site_info")) && MappingOrFalsy(Get(site, "solarbank_info"))
    requires t < |PowerEntries(site, DictOrEmpty(Get(site, "solarbank_info")).value)|
    requires AsFloat(PowerEntries(site, DictOrEmpty(Get(site, "solarbank_info")).value)[t].1).Some?
    ensures Read(Apply(r, SiteBlock(siteId, site).writes), KeyOf(SitePower),
                 Values(SiteLabels(siteId, DictOrEmpty(Get(site, "site_info")).value))
                   + [PowerEntries(site, DictOrEmpty(Get(site, "solarbank_info")).value)[t].0])
            == AsFloat(PowerEntries(site, DictOrEmpty(Get(site, "solarbank_info")).value)[t].1)
  {
    var labels := SiteLabels(siteId, DictOrEmpty(Get(site, "site_info")).value);
    TailAvoidsFixedKeys(labels, site);
    PowerReadsBack(r, labels, site, DictOrEmpty(Get(site, "solarbank_info")).value, TailBlock(labels, site).writes, t);
  }

  /** `for site_id, site in client.sites.items()`, each site in turn. */
  function SiteBlocks(sites: seq<(string, Dict)>): (es: seq<Emit>)
    ensures |es| == |sites|
    ensures forall i | 0 <= i < |sites| :: es[i] == SiteBlock(sites[i].0, sites[i].1)
  {
    seq(|sites|, i requires 0 <= i < |sites| => SiteBlock(sites[i].0, sites[i].1))
  }

  /** The site loop: the first site that is not well shaped ends it, and with it the cycle. */
  function Sites(sites: seq<(string, Dict)>): (e: Emit)
    ensures e.raised <==> exists i | 0 <= i < |sites| :: !WellShaped(sites[i].1)
  {
    var es := SiteBlocks(sites);
    assert forall i | 0 <= i < |sites| :: es[i].raised == !WellShaped(sites[i].1);
    Chain(es)
  }

  lemma {:induction false} FixedConforms(labels: Labels, site: Dict, sb: Dict)
    requires Keys(labels) == ["site_id", "site_name"]
    ensures AllConform(FixedWrites(labels, site, sb), SiteGauges)
  {
    var power := Categorical(SitePower, labels, "type", PowerEntries(site, sb));
    assert Keys(labels) + ["type"] == SitePower.labelNames;
    ConformAppend(power, [Write(SiteDataValid, labels, Bit(Get(site, "data_valid")))], SiteGauges);
    ConformAppend(power + [Write(SiteDataValid, labels, Bit(Get(site, "data_valid")))], SocWrites(labels, sb), SiteGauges);
  }

  lemma {:induction false} EnergyConforms(labels: Labels, details: Value)
    requires Keys(labels) == ["site_id", "site_name"]
    ensures AllConform(EnergyToday(labels, details).writes, SiteGauges)
  {
    if details.VMap? && Get(details.entries, "today").VMap? {
      var today := Get(details.entries, "today").entries;
      assert Keys(labels) + ["type"] == SiteEnergyToday.labelNames == SiteEnergyTodayPercent.labelNames;
      forall w | w in EnergyWrites(labels, today) ensures Conforms(w) && w.gauge in SiteGauges {
        var e :| e in today && !Skipped(e.0) && AsFloat(e.1).Some? && w == EnergyWrite(labels, e.0, AsFloat(e.1).value);
      }
    }
  }

  lemma {:induction false} TailConforms(labels: Labels, site: Dict)
    requires Keys(labels) == ["site_id", "site_name"]
    ensures AllConform(TailBlock(labels, site).writes, SiteGauges)
  {
    var stats := Statistics(labels, Get(site, "statistics"));
    var price := PriceBlock(labels, Get(site, "site_details"));
    var energy := EnergyToday(labels, Get(site, "energy_details"));
    assert AllConform(price.writes, SiteGauges) by {
      assert Keys(labels) + ["price_type", "unit"] == SitePrice.labelNames;
    }
    EnergyConforms(labels, Get(site, "energy_details"));
    ThenConforms(price, energy, SiteGauges);
    ThenConforms(stats, Then(price, energy), SiteGauges);
  }

  /**
   Every write of a site names exactly the label names its gauge was declared
   with, in order, and goes to a declared gauge: `gauge.labels(**labels)`
   never rejects a label set.
   */
  lemma {:induction false} SiteConforms(siteId: string, site: Dict)
    ensures AllConform(SiteBlock(siteId, site).writes, SiteGauges)
  {
    match DictOrEmpty(Get(site, "site_info"))
    case None =>
    case Some(info) =>
      var labels := SiteLabels(siteId, info);
      match DictOrEmpty(Get(site, "solarbank_info"))
      case None =>
      case Some(sb) =>
        FixedConforms(labels, site, sb);
        TailConforms(labels, site);
        ThenConforms(Done(FixedWrites(labels, site, sb)), TailBlock(labels, site), SiteGauges);
  }

  lemma {:induction false} SitesConform(sites: seq<(string, Dict)>)
    ensures AllConform(Sites(sites).writes, SiteGauges)
  {
    var es := SiteBlocks(sites);
    forall i | 0 <= i < |es| ensures AllConform(es[i].writes, SiteGauges) {
      SiteConforms(sites[i].0, sites[i].1);
    }
    ChainConforms(es, SiteGauges);
  }
}
