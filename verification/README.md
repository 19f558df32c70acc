# Anker Solix Prometheus exporter — the metric-extraction core

This project models the part of the Anker Solix Prometheus exporter that turns
the cached cloud snapshots of sites and devices into gauge writes, and proves
properties of that model in Dafny. There are two variants of the exporter and
both are modelled:

- the packaged exporter (`src/anker_solix_prom_exporter/exporter.py`), which
  declares every gauge with fixed label names at import time and writes to them
  with `_set_gauge`. It also runs an MQTT pass every fifteen seconds;
- the stand-alone script (`exporter.py`), which declares nothing up front. Its
  `_set_metric` fetches the gauge from a cache keyed by the metric name and the
  label names, creating it on first use.

What is modelled:

- the value normaliser `_as_float`: placeholders, whitespace, unit characters,
  and booleans and integers as floats;
- the gauge registry: `_get_gauge`, and the `_set_gauge` / `_set_metric` writes
  that skip values which do not normalise;
- the site, device and MQTT extraction blocks of both variants:
  - label construction and its fallbacks (`Unknown`, `noname`, `unknown`, `""`);
  - the `type` loops over dict literals;
  - the tri-state flags;
  - the PV strings and their names;
  - the statistics, price and energy-today loops;
- exceptions: `.get` on a truthy value that is not a mapping raises, and that
  ends the cycle (or the MQTT pass) with the writes made so far kept;
- the pause between cycles, `max(5, interval)`.

Python values are the datatype `Json.Value`. A dict is the sequence of its
items in insertion order. Truthiness, `dict.get`, `a or b` and `str()` are
written out in `json.dfy`. The registry maps a gauge key, which is the name plus
the label names, to the gauge's help text and its series. A series is keyed by
the tuple of label values and holds the last value written. Reals stand in for
doubles.

Modules:

| file | module | contents |
|---|---|---|
| optional.dfy | Optional | `Option` |
| decimal.dfy | Decimal | digit strings, `str(int)`, the plain decimal grammar accepted by `float()` |
| json.dfy | Json | Python values, truthiness, `get`, `or`, `str()` |
| normalize.dfy | Normalize | `strip`, `replace`, `_as_float` and its overflow finding |
| registry.dfy | Registry | descriptors, gauges, `_get_gauge`, the write, sequences of writes, `Emit` for exceptions |
| extract.dfy | Extract | shared pieces: label extension, `type` loops, flags, field tables, label conformance |
| gauges.dfy | Gauges | the packaged exporter's import-time gauge declarations |
| site.dfy, device.dfy, mqtt.dfy | Site, Device, Mqtt | the packaged exporter's extraction blocks |
| cycle.dfy | Cycle | a packaged polling cycle, and cycles interleaved with MQTT passes |
| script.dfy | Script | the stand-alone script: its site and device blocks, cycle and lazy gauge cache |
| schedule.dfy | Schedule | the polling loop: rounds of a cycle and a pause, and the pause `max(5, interval)` |

Exceptions follow the code's error handling:

- A `.get` on a malformed sub-mapping (`site_info`, `solarbank_info` and the
  others) raises to the handler around the whole cycle. That skips the
  remaining sites and all devices (`Registry.ChainRaised`, `Cycle.Run`,
  `Script.Run`).
- The cache refreshes share that `try`, so a failing refresh skips the
  remaining refreshes and the export.

## Model

| member | source | states |
|---|---|---|
| Normalize.AsFloat | src/anker_solix_prom_exporter/exporter.py:301-320 | None and non-numeric types give nothing. Booleans give 1 or 0 and ints give their value (when a double can hold them). Floats are kept. A string gives nothing when it strips to a placeholder, and otherwise gives the decimal reading of its text after removing `W` and `%` and stripping. |
| Normalize.AsFloatAsWritten | src/anker_solix_prom_exporter/exporter.py:304-308 | As written, the conversion raises exactly on integers outside the range a double can hold. |
| Normalize.AsWrittenRaisesOnHugeInt | src/anker_solix_prom_exporter/exporter.py:304-308 | `2**1024 - 2**970` and `-(2**1024 - 2**970) - 1` make the as-written conversion raise. |
| Normalize.AsWrittenAgreesWhenNoRaise | src/anker_solix_prom_exporter/exporter.py:301-320 | Wherever the as-written conversion does not raise, it agrees with the corrected one. |
| Normalize.PlaceholdersDoNotParse | src/anker_solix_prom_exporter/exporter.py:311-313 | No placeholder (`""`, `-` to `----`) is a number, and placeholders contain no unit characters. |
| Normalize.UnitsIgnored | src/anker_solix_prom_exporter/exporter.py:314-315 | Removing `W` and `%` beforehand never changes the result: unit characters anywhere are ignored. |
| Normalize.IntTextRoundTrip | src/anker_solix_prom_exporter/exporter.py:309-318 | The text of any integer, bare or followed by ` W` or `%`, normalises back to that integer. |
| Normalize.FixedPointReadBack | src/anker_solix_prom_exporter/exporter.py:309-318 | `[-]whole.frac` normalises to its fixed-point value. |
| Normalize.NoDigitsAbsent | src/anker_solix_prom_exporter/exporter.py:316-319 | Text without any digit never normalises to a number. |
| Normalize.PlaceholderSet | src/anker_solix_prom_exporter/exporter.py:311-313 | The placeholders are `""` and one to four dashes. Five dashes, a digit and a dash after a space are not placeholders. |
| Normalize.StripUnique | src/anker_solix_prom_exporter/exporter.py:310 | `strip()` removes exactly the leading and trailing whitespace. |
| Registry.GetGauge | exporter.py:50-56 | The cache gains exactly the requested key and keeps every other gauge. A new gauge carries the caller's help text and no series. |
| Registry.GetGaugeIdempotent | exporter.py:50-56 | Fetching the same key twice returns the same gauge and leaves the cache unchanged. |
| Registry.SetMetric | exporter.py:81-86 | A value that does not normalise leaves the registry untouched and creates no gauge. Otherwise exactly the written series reads the normalised value, every other series and gauge is unchanged, and an existing gauge keeps its help text. |
| Registry.LastWriteWins | src/anker_solix_prom_exporter/exporter.py:323-327 | After a sequence of writes, a series holds the value of the last write to it that normalises, or its earlier value when there is none. |
| Registry.AgreeingWritesReadBack | src/anker_solix_prom_exporter/exporter.py:323-327 | A series that every write sets to the same value reads back that value. |
| Registry.SoleWriteReadsBack | src/anker_solix_prom_exporter/exporter.py:323-327 | A normalising write that is the only one to its gauge reads back, whatever comes before or after it. |
| Registry.OtherGaugesKeepRead | src/anker_solix_prom_exporter/exporter.py:323-327 | Writes to other gauges leave every series of a gauge reading what it read before. |
| Registry.ApplyKeys | exporter.py:81-86 | The writes add exactly the gauges that received a normalising value. |
| Registry.ApplyKeepsHelp | exporter.py:50-56 | A cached gauge keeps its help text whatever help later writes pass. |
| Registry.ApplyIdempotent | src/anker_solix_prom_exporter/exporter.py:323-327 | Repeating the same writes leaves the same registry. |
| Registry.UnitTextReadsBack | src/anker_solix_prom_exporter/exporter.py:301-327 | Writing `str(n) + " W"` reads back `n`. |
| Registry.Chain | src/anker_solix_prom_exporter/exporter.py:640-643 | A loop of blocks raises exactly when one of its blocks raises, and otherwise makes all their writes in order. |
| Registry.ChainRaised | src/anker_solix_prom_exporter/exporter.py:640-643 | When a loop of blocks raises, the first raising block ends it. The writes are those of the earlier blocks, followed by what the raising block wrote before its raise. Later blocks write nothing. |
| Json.DictOrEmpty | src/anker_solix_prom_exporter/exporter.py:463-465 | `v or {}` followed by `.get` works exactly when `v` is falsy or a mapping: a falsy value reads as the empty mapping, and a mapping reads as itself. |
| Json.GetSound | src/anker_solix_prom_exporter/exporter.py:472-482 | `get` gives None for a missing key, and otherwise a value stored under that key. |
| Json.GetFindsEntry | src/anker_solix_prom_exporter/exporter.py:472-482 | In a dict with distinct keys, `get` finds the value stored under the key. |
| Extract.DeviceName | src/anker_solix_prom_exporter/exporter.py:552 | The name label is the name, else the alias, else `noname`, and is never empty. |
| Extract.LabelOr | src/anker_solix_prom_exporter/exporter.py:528-529 | An optional label is the field's text when the field is truthy, and otherwise the fallback. |
| Extract.CategoricalExact | src/anker_solix_prom_exporter/exporter.py:484-488 | A `type` loop writes one series per entry that is not None, and nothing else. |
| Extract.CategoricalReadsBack | src/anker_solix_prom_exporter/exporter.py:472-488 | With distinct keys, each entry that normalises reads back from its own `type` series. |
| Extract.Flag | src/anker_solix_prom_exporter/exporter.py:613-622 | The tri-state flag is None exactly for None. Otherwise it is 1 for a truthy value and 0 for a falsy one. |
| Extract.FlagGuardedAgree | exporter.py:381-394 | Writing the tri-state flag (packaged) and the guarded `if … is not None` write (script) leave the same registry. |
| Extract.FieldWrite | src/anker_solix_prom_exporter/exporter.py:611-638 | A single-series field writes its gauge under the device labels. The charging status adds a `desc` label with the description, or `""`. |
| Extract.FieldsConform | src/anker_solix_prom_exporter/exporter.py:611-638 | A field table whose gauges were declared with the labels it writes only makes conforming writes. |
| Gauges.Declare | src/anker_solix_prom_exporter/exporter.py:101-298 | Declaring gauges adds exactly their keys, each with no series, and keeps any gauge already there. |
| Site.SiteLabels | src/anker_solix_prom_exporter/exporter.py:463-466 | The site labels are `site_id` then `site_name`. The name is the site info's name when truthy, else `Unknown`. |
| Site.SocPercent | src/anker_solix_prom_exporter/exporter.py:492-496 | The state of charge is written, as 100 times the fraction, exactly when the fraction normalises. |
| Site.StatReading | src/anker_solix_prom_exporter/exporter.py:506-521 | Type `"1"` gives the energy produced in kWh (a total in Wh is divided by 1000). Type `"3"` gives the savings. Anything else, or a total that does not normalise, gives nothing. |
| Site.Statistics | src/anker_solix_prom_exporter/exporter.py:506-521 | The statistics loop raises exactly when `statistics` is truthy and not a list of mappings. It writes only the produced-energy and savings gauges, under the site labels. A falsy `statistics` writes nothing. |
| Site.StatItemsExact | src/anker_solix_prom_exporter/exporter.py:506-521 | Each write of the loop is the reading of a mapping item that the loop reaches, meaning every earlier item is a mapping too. Conversely, every reached item that has a reading is written. |
| Site.PriceBlock | src/anker_solix_prom_exporter/exporter.py:523-532 | It raises exactly on malformed site details. It writes the raw price exactly when one is present, under the labels plus `price_type` (default `fixed`) and `unit` (default `""`). |
| Site.EnergyGauge | src/anker_solix_prom_exporter/exporter.py:543-546 | Keys containing `percentage` go to the percent gauge, and every other key goes to the kWh gauge. |
| Site.EnergyWrites | src/anker_solix_prom_exporter/exporter.py:535-546 | Each write comes from a key that is neither `date` nor holds `smartplug`, and whose value normalises. Every such key is written. |
| Site.EnergyToday | src/anker_solix_prom_exporter/exporter.py:534-546 | It raises exactly when `energy_details` or its `today` is truthy but not a mapping. Otherwise it writes the today loop. |
| Site.SiteBlock | src/anker_solix_prom_exporter/exporter.py:462-546 | A site raises exactly when one of its sub-mappings or lists is malformed. A malformed `site_info` or `solarbank_info` raises before any write. Otherwise the site writes its power types, its validity flag and its state of charge first, then the statistics, price and energy-today writes. |
| Site.SiteReadsBack | src/anker_solix_prom_exporter/exporter.py:490-496 | After a site whose site and Solarbank info are mappings, the validity series reads 1 or 0 by the truth of `data_valid`. The state of charge, when its fraction normalises, reads 100 times it, even if a later part of the site raises. |
| Site.SitePowerReadsBack | src/anker_solix_prom_exporter/exporter.py:468-488 | After such a site, each power type whose value normalises reads that value from its own `type` series. |
| Site.ValidReadsBack | src/anker_solix_prom_exporter/exporter.py:490 | No later site write touches the validity series, so it keeps the flag. |
| Site.SocReadsBack | src/anker_solix_prom_exporter/exporter.py:492-496 | No later site write touches the state-of-charge series, so it keeps 100 times the fraction. |
| Site.PowerReadsBack | src/anker_solix_prom_exporter/exporter.py:484-488 | The power types are distinct and no later site write touches the power gauge, so each normalising type reads back. |
| Site.DataValidAlwaysWritten | src/anker_solix_prom_exporter/exporter.py:490 | Once the site and Solarbank info are mappings, the validity flag is always written, as 0 when missing or falsy. |
| Site.Sites | src/anker_solix_prom_exporter/exporter.py:462 | The site loop raises exactly when some site is malformed. |
| Site.SiteConforms | src/anker_solix_prom_exporter/exporter.py:101-150 | Every site write uses exactly the label names its gauge was declared with, and goes to a declared site gauge. |
| Device.DeviceLabels | src/anker_solix_prom_exporter/exporter.py:550-553 | The device labels are the serial number and the name with its fallbacks. |
| Device.InfoLabels | src/anker_solix_prom_exporter/exporter.py:555-562 | The info labels are the device labels plus part number, generation and firmware version, each `""` when missing. |
| Device.InverterLimit | src/anker_solix_prom_exporter/exporter.py:576 | The inverter limit falls back to the preset limit whenever it is falsy, 0 included. |
| Device.PvLabel | src/anker_solix_prom_exporter/exporter.py:595-608 | The `pv` label is the configured string name when `pv_name` is a mapping holding a truthy name, else the string's number. It is never empty. |
| Device.PvWrites | src/anker_solix_prom_exporter/exporter.py:596-609 | PV string `i` (1 to 4) is written exactly when its power field is not None. |
| Device.FieldLabelsBounded | src/anker_solix_prom_exporter/exporter.py:565-638 | Every device write after the info write carries at most one label beyond the device labels. |
| Device.InfoReadsOne | src/anker_solix_prom_exporter/exporter.py:555-563 | After a device block, the device's info series reads 1, whatever it held before. |
| Device.DeviceConforms | src/anker_solix_prom_exporter/exporter.py:152-227 | Every device write uses exactly the label names its gauge was declared with, and goes to a declared device gauge. |
| Mqtt.StatusBlock | src/anker_solix_prom_exporter/exporter.py:348-419 | A falsy status writes nothing. A truthy non-mapping raises before any write. A mapping writes its power types, energy types and scalar fields. |
| Mqtt.DeviceStatus | src/anker_solix_prom_exporter/exporter.py:343-344 | Only devices with an MQTT device object take part in the pass. |
| Mqtt.MqttPass | src/anker_solix_prom_exporter/exporter.py:340-429 | A pass raises exactly when some device in it has a truthy status that is not a mapping. |
| Mqtt.SilentDevicesWriteNothing | src/anker_solix_prom_exporter/exporter.py:343-350 | A pass over devices without a status object, or with falsy statuses, writes nothing. |
| Mqtt.PassConforms | src/anker_solix_prom_exporter/exporter.py:229-298 | Every MQTT write uses exactly the label names its gauge was declared with, and goes to a declared MQTT gauge. |
| Cycle.Run | src/anker_solix_prom_exporter/exporter.py:440-645 | A failed refresh writes nothing. Otherwise the cycle raises exactly when some site is malformed, and the site writes come first. A raising cycle makes no device write. When no site raised, the device writes follow. |
| Cycle.RunConforms | src/anker_solix_prom_exporter/exporter.py:462-638 | Every write of a cycle conforms to a declared site or device gauge. |
| Cycle.DeclaredWritesKeepKeys | src/anker_solix_prom_exporter/exporter.py:323-327 | Writes to declared gauges create no gauge in a registry that holds them all. |
| Cycle.StepsKeepKeys | src/anker_solix_prom_exporter/exporter.py:330-645 | However polling cycles and MQTT passes interleave, and whatever the snapshots hold, the set of gauges stays the declared one. |
| Cycle.DeclareHolds | src/anker_solix_prom_exporter/exporter.py:101-298 | Declaring every declared descriptor, in any order and from any registry, leaves a registry that holds all the declared gauges. |
| Cycle.StartupKeepsDeclared | src/anker_solix_prom_exporter/exporter.py:101-645 | After the import-time declarations on the empty registry, the gauges are exactly the declared ones under any interleaving of cycles and MQTT passes. |
| Schedule.CycleDelay | src/anker_solix_prom_exporter/exporter.py:645 | The pause is at least 5 seconds and at least the interval, and equals one of them. |
| Schedule.LoopEvents | exporter.py:93-456 | Round i of the polling loop is the i-th cycle, reported as raised or not, followed by one pause of the cycle delay. A raising cycle does not stop the loop. |
| Schedule.LoopApplies | exporter.py:93-456 | Nothing is rolled back. The registry after the loop is the starting one with every cycle's writes applied in order, those of raising cycles included. |
| Schedule.LoopPauses | exporter.py:451-456 | n rounds pause n times the cycle delay in total. |
| Schedule.LoopPausesAtLeast | exporter.py:451-456 | n rounds pause at least 5n seconds in total, whatever the interval. |
| Cycle.PollingKeepsDeclared | src/anker_solix_prom_exporter/exporter.py:440-645 | Over any number of polling rounds, whatever each cycle raised, the packaged exporter's registry keeps exactly the declared gauges. |
| Script.MetricWrite | exporter.py:81-86 | One `_set_metric` call writes to the gauge named by the family prefix and suffix, with label names in label order. Its value is the field, or the fallback field when the first is falsy, or the tri-state switch. |
| Script.SwitchIsGuarded | exporter.py:381-394 | A switch metric changes the registry exactly as the script's `if … is not None` guarded write does. |
| Script.ClosingWrites | exporter.py:163-186 | The validity flag is always written first. The state of charge follows exactly when its fraction normalises, as 100 times the fraction. |
| Script.PlugPart | exporter.py:151-186 | It raises, before any write, exactly when `smart_plug_info` is truthy but not a mapping. |
| Script.SolarbankPart | exporter.py:111-186 | A malformed `solarbank_info` raises before any Solarbank write. |
| Script.SiteBlock | exporter.py:101-186 | A site raises exactly when one of its three info mappings is malformed. A bad `site_info` writes nothing. A bad `solarbank_info` leaves exactly the home-load write, of `home_load_power` under the site labels. |
| Script.Sites | exporter.py:101-186 | The site loop raises exactly when some site is malformed. |
| Script.SiteWritesSeparate | exporter.py:101-186 | No two writes of one site go to the same gauge. |
| Script.SiteWriteReadsBack | exporter.py:101-186 | After a site, every write it made whose value normalises is what its series reads. |
| Script.ShapedWrites | exporter.py:101-186 | A site that runs to its end writes, in order: home load, the Solarbank totals and cascaded flag, the smart-plug total, the other-loads and retain-load powers, then the closing writes. |
| Script.SolarbankReadsBack | exporter.py:111-150 | After a site whose Solarbank info is a mapping, each Solarbank total and the cascaded flag read what their fields normalise to, even when the smart-plug part raises afterwards. |
| Script.LoadReadsBack | exporter.py:158-170 | After a site that runs to its end, the other-loads power and the retain-load preset read what the site's fields normalise to. |
| Script.ClosingReadsBack | exporter.py:171-187 | After a site that runs to its end, the validity series reads 1 or 0 by the truth of `data_valid`. The state of charge, when the fraction normalises, reads 100 times it. |
| Script.DataValidAlwaysWritten | exporter.py:163-170 | A well-shaped site always writes its validity flag. |
| Script.DeviceLabels | exporter.py:190-195 | The device labels are the serial, the site id (or `""`), the type (or `unknown`) and the name with its fallbacks. |
| Script.InfoLabels | exporter.py:198-205 | The info labels are the device labels plus part number, generation and firmware version. |
| Script.InfoReadsOne | exporter.py:206-211 | After a device block, the info series reads 1. |
| Script.DeviceMetricsAvoidInfo | exporter.py:213-449 | No per-device metric is named like the info series. |
| Script.Run | exporter.py:93-456 | A failed refresh writes nothing. Otherwise the cycle raises exactly when some site is malformed. The site writes come first, and the device writes follow them when no site raised. |
| Script.ScriptKeysAgree | exporter.py:47-56 | Among the names the script forms, no name goes with two different label-name tuples. |
| Script.RunScripted | exporter.py:101-449 | Every write of a script cycle goes to a site metric under the site label names, a device metric under the device label names, or the info series under the info label names. |
| Script.CyclesKeepOneLabelSet | exporter.py:47-56 | Starting from the empty cache, no number of rounds of the polling loop ever caches one metric name under two label-name tuples. `prometheus_client` would reject such a second gauge as a duplicate. |

## Left out

- Timestamp writes (`updated_time`, MQTT `last_update`): these parse dates with `strptime` and read the local clock. The gauges are declared, but their writes are not modelled.
- The cache refreshes, the MQTT device factory, the topic and trigger sets and the message poller are I/O. A refresh that raises is the `refreshed` parameter of `Run`. The statuses the MQTT device objects hold are a parameter of `MqttPass`.
- Logging, `json.dumps` of the MQTT statistics, environment configuration, login and the HTTP exposition server are left out.
- Normalize.AsFloat: the decimal grammar is `[+|-](digits[.[digits]] | .digits)` over the ASCII digits `0`-`9`. Python's `float()` also accepts exponents, `inf`/`nan`, underscores between digits and non-ASCII Unicode decimal digits (`float("١٢")` is 12.0). The model reads all of these as not a number.
- Normalize.AsFloat: a Python float is a real. Double rounding of `i as real`, `f * 100.0` and `f / 1000.0` is not modelled.
- Registry.SetMetric, Site.SiteBlock, Site.Sites, Device.Devices, Mqtt.StatusBlock, Mqtt.MqttPass, Cycle.Run, Script.SiteBlock, Script.Sites, Script.Devices, Script.Run: every write goes through the corrected normaliser `Normalize.AsFloat`, so a write never raises. The `OverflowError` that `_set_gauge` / `_set_metric` let escape for an integer outside the double range (see Findings) is not among these members' raise conditions. Their `raised` depends only on the shape of the snapshot, and the device loops never raise.
- Json.Str: non-integral floats, non-empty containers and foreign objects print as a fixed stand-in text rather than Python's repr.
- Device.PvLabel: a `pv_name` that is not a mapping is read through `getattr`. The model treats it as having no such attribute.
- Concurrency: the MQTT task and the polling cycle contain no `await` between writes, so each runs as a whole. Their interleaving is the order of `Cycle.Step`s. A scrape that reads the registry mid-cycle is not modelled.
- Label values are not validated the way `prometheus_client` validates them. Only the label names are checked, against the declared ones (`Registry.Conforms`).
- The import-time declarations are a registry that holds every declared gauge (`Gauges.HoldsDeclared`), built by `Gauges.Declare`.

## Findings

| source | as written | input that shows it | evidently intended | confidence | as-written member | corrected member |
|---|---|---|---|---|---|---|
| src/anker_solix_prom_exporter/exporter.py:304-308 (also exporter.py:62-66) | `float(value)` on an int is guarded by `except (TypeError, ValueError)`. `float()` of an int too large for a double raises `OverflowError`, which escapes `_as_float` and ends the whole cycle. | a field holding the int `2**1024` | an unconvertible value is absent (None), like every other value that cannot be read | not executed | Normalize.AsFloatAsWritten (with Normalize.AsWrittenRaisesOnHugeInt) | Normalize.AsFloat (with Normalize.AsWrittenAgreesWhenNoRaise) |
