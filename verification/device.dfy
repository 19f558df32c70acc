/**
 The device block of the packaged exporter's polling cycle: for one device of
 the cloud snapshot, the writes it makes to the declared device gauges. A
 device is always a mapping and every nested read is guarded, so no read
 raises; with writes through the corrected normaliser, the block never raises.
 */
module Device {
  import opened Optional
  import opened Decimal
  import opened Json
  import opened Normalize
  import opened Registry
  import opened Extract
  import opened Gauges

  /** `{"device_sn": str(sn), "name": <name, else alias, else "noname">}`. */
  function DeviceLabels(sn: string, dev: Dict): (l: Labels)
    ensures Keys(l) == ["device_sn", "name"]
    ensures Values(l) == [sn, DeviceName(dev)]
  {
    [("device_sn", sn), ("name", DeviceName(dev))]
  }

  /** The info labels: the device labels, then part number, generation and firmware version, each "" when missing. */
  function InfoLabels(sn: string, dev: Dict): (l: Labels)
    ensures Keys(l) == DeviceInfo.labelNames
    ensures Values(l) == [sn, DeviceName(dev), LabelOr(dev, "device_pn", ""), LabelOr(dev, "generation", ""),
                          LabelOr(dev, "sw_version", "")]
  {
    Extend(Extend(Extend(DeviceLabels(sn, dev), "device_pn", LabelOr(dev, "device_pn", "")),
      "generation", LabelOr(dev, "generation", "")), "sw_version", LabelOr(dev, "sw_version", ""))
  }

  /** The micro-inverter limit, falling back to the preset limit whenever it is falsy (0 included). */
  function InverterLimit(dev: Dict): (v: Value)
    ensures Truthy(Get(dev, "micro_inverter_power_limit")) ==> v == Get(dev, "micro_inverter_power_limit")
    ensures !Truthy(Get(dev, "micro_inverter_power_limit")) ==> v == Get(dev, "preset_inverter_limit")
  {
    Or(Get(dev, "micro_inverter_power_limit"), Get(dev, "preset_inverter_limit"))
  }

  /** The `type` entries of the device power gauge. */
  function PowerEntries(dev: Dict): seq<(string, Value)> {
    [ ("input", Get(dev, "input_power")),
      ("output", Get(dev, "output_power")),
      ("charging", Get(dev, "charging_power")),
      ("battery_charge", Get(dev, "bat_charge_power")),
      ("generate", Get(dev, "generate_power")),
      ("micro_inverter", Get(dev, "micro_inverter_power")),
      ("micro_inverter_limit", InverterLimit(dev)),
      ("grid_import", Get(dev, "grid_to_home_power")),
      ("grid_export", Get(dev, "photovoltaic_to_grid_power")),
      ("current", Get(dev, "current_power")),
      ("ac", Get(dev, "ac_power")),
      ("other_input", Get(dev, "other_input_power")),
      ("micro_inverter_low_limit", Get(dev, "micro_inverter_low_power_limit")),
      ("grid_to_battery", Get(dev, "grid_to_battery_power")),
      ("pei_heating", Get(dev, "pei_heating_power")),
      ("set_output", Get(dev, "set_output_power")),
      ("set_system_output", Get(dev, "set_system_output_power")) ]
  }

  /** A limit of 0 is falsy: the preset limit is written in its place. */
  lemma {:induction false} ZeroLimitFallsBack(dev: Dict)
    requires Get(dev, "micro_inverter_power_limit") == VInt(0)
    ensures PowerEntries(dev)[6] == ("micro_inverter_limit", Get(dev, "preset_inverter_limit"))
  {
  }

  /** The snapshot key of PV string i. */
  function SolarKey(i: nat): string {
    "solar_power_" + NatText(i)
  }

  /**
   The `pv` label of string i: the configured name `pv_name["pv<i>_name"]` when
   `pv_name` is a mapping and that name is truthy, else the decimal text of i.
   A `pv_name` that is not a mapping has no such attribute and gives no name.
   */
  function PvLabel(dev: Dict, i: nat): (t: string)
    ensures |t| > 0
    ensures var names := Or(Get(dev, "pv_name"), VMap([]));
      var name := if names.VMap? then Get(names.entries, "pv" + NatText(i) + "_name") else VNone;
      (Truthy(name) ==> t == Str(name)) && (!Truthy(name) ==> t == NatText(i))
  {
    var names := Or(Get(dev, "pv_name"), VMap([]));
    var name := if names.VMap? then Get(names.entries, "pv" + NatText(i) + "_name") else VNone;
    Str(Or(name, VStr(NatText(i))))
  }

  function PvWrite(labels: Labels, dev: Dict, i: nat): Write {
    Write(DevicePv, Extend(labels, "pv", PvLabel(dev, i)), Get(dev, SolarKey(i)))
  }

  /**
   The PV strings lo..4: a string is written exactly when its power field is
   present (not None), with its `pv` label.
   */
  function PvWrites(labels: Labels, dev: Dict, lo: nat): (ws: seq<Write>)
    requires 1 <= lo <= 5
    ensures |ws| <= 5 - lo
    ensures forall w | w in ws :: exists i | lo <= i <= 4 :: Get(dev, SolarKey(i)) != VNone && w == PvWrite(labels, dev, i)
    ensures forall i | lo <= i <= 4 && Get(dev, SolarKey(i)) != VNone :: PvWrite(labels, dev, i) in ws
    decreases 5 - lo
  {
    if lo == 5 then []
    else
      var rest := PvWrites(labels, dev, lo + 1);
      if Get(dev, SolarKey(lo)) != VNone then [PvWrite(labels, dev, lo)] + rest else rest
  }

  /** The battery level and energy, read as they are. */
  const BatteryFields: seq<Field> := [
    Plain(DeviceBatterySoc, "battery_soc"),
    Plain(DeviceBatteryEnergy, "battery_energy") ]

  /** The connectivity, status and capacity fields, after the PV strings. */
  const StatusFields: seq<Field> := [
    Plain(DeviceWifiSignal, "wifi_signal"),
    Plain(DeviceWifiRssi, "rssi"),
    Flagged(DeviceWifiOnline, "wifi_online"),
    Flagged(DeviceWiredConnected, "wired_connected"),
    Plain(DeviceStatus, "status"),
    Described(DeviceCharging, "charging_status", "charging_status_desc"),
    Plain(DeviceGridStatus, "grid_status"),
    Flagged(DeviceDataValid, "data_valid"),
    Plain(DeviceCapacity, "battery_capacity"),
    Plain(DeviceSubPackage, "sub_package_num") ]

  /** The info series of the device, set to 1. */
  function InfoWrite(sn: string, dev: Dict): Write {
    Write(DeviceInfo, InfoLabels(sn, dev), VInt(1))
  }

  /** The writes after the info write: battery, power types, PV strings, then the status fields. */
  function FieldWrites(labels: Labels, dev: Dict): seq<Write> {
    Fields(labels, dev, BatteryFields) + Categorical(DevicePower, labels, "type", PowerEntries(dev))
      + PvWrites(labels, dev, 1) + Fields(labels, dev, StatusFields)
  }

  lemma {:induction false} PvLabelsBounded(labels: Labels, dev: Dict)
    ensures forall w | w in PvWrites(labels, dev, 1) :: |w.labels| == |labels| + 1
  {
    forall w | w in PvWrites(labels, dev, 1) ensures |w.labels| == |labels| + 1 {
      var i :| 1 <= i <= 4 && Get(dev, SolarKey(i)) != VNone && w == PvWrite(labels, dev, i);
    }
  }

  /** Every write after the info write carries at most one label beyond the device labels (`type`, `pv` or `desc`). */
  lemma {:induction false} FieldLabelsBounded(labels: Labels, dev: Dict)
    ensures forall w | w in FieldWrites(labels, dev) :: |w.labels| <= |labels| + 1
  {
    var battery := Fields(labels, dev, BatteryFields);
    var power := Categorical(DevicePower, labels, "type", PowerEntries(dev));
    var pv := PvWrites(labels, dev, 1);
    var status := Fields(labels, dev, StatusFields);
    PvLabelsBounded(labels, dev);
    forall w: Write | w in battery + power + pv + status ensures |w.labels| <= |labels| + 1 {
      assert w in battery || w in power || w in pv || w in status;
      if w in battery {
        var i :| 0 <= i < |battery| && battery[i] == w;
      } else if w in status {
        var i :| 0 <= i < |status| && status[i] == w;
      }
    }
  }

  /** One device: the info write, then the field writes under the device labels. */
  function DeviceBlock(sn: string, dev: Dict): seq<Write> {
    [InfoWrite(sn, dev)] + FieldWrites(DeviceLabels(sn, dev), dev)
  }

  /** The device loop: the blocks of all devices, in order. With writes through the corrected normaliser, it never raises. */
  function Devices(devices: seq<(string, Dict)>): (ws: seq<Write>)
    decreases |devices|
  {
    if |devices| == 0 then [] else DeviceBlock(devices[0].0, devices[0].1) + Devices(devices[1..])
  }

  /**
   After a device block the info series of the device reads 1, whatever it
   held before: no later write of the block can reach it, because the info
   series alone carries five labels.
   */
  lemma {:induction false} InfoReadsOne(r: Registry, sn: string, dev: Dict)
    ensures Read(Apply(r, DeviceBlock(sn, dev)), KeyOf(DeviceInfo), Values(InfoLabels(sn, dev))) == Some(1.0)
  {
    var ws := DeviceBlock(sn, dev);
    FieldLabelsBounded(DeviceLabels(sn, dev), dev);
    forall j | 0 <= j < |ws| && KeyOf(ws[j].gauge) == KeyOf(ws[0].gauge) && Values(ws[j].labels) == Values(ws[0].labels)
      ensures AsFloat(ws[j].raw) == AsFloat(ws[0].raw)
    {
      if j > 0 {
        assert false;
      }
    }
    AgreeingWritesReadBack(r, ws, 0);
  }

  lemma {:induction false} PvConforms(labels: Labels, dev: Dict, lo: nat)
    requires 1 <= lo <= 5
    requires Keys(labels) == ["device_sn", "name"]
    ensures AllConform(PvWrites(labels, dev, lo), DeviceGauges)
  {
    assert Keys(labels) + ["pv"] == DevicePv.labelNames;
    forall w | w in PvWrites(labels, dev, lo) ensures Conforms(w) && w.gauge in DeviceGauges {
      var i :| lo <= i <= 4 && Get(dev, SolarKey(i)) != VNone && w == PvWrite(labels, dev, i);
    }
  }

  lemma {:induction false} FieldTablesFit(labels: Labels)
    requires Keys(labels) == ["device_sn", "name"]
    ensures forall i | 0 <= i < |BatteryFields| :: FieldFits(BatteryFields[i], Keys(labels)) && BatteryFields[i].gauge in DeviceGauges
    ensures forall i | 0 <= i < |StatusFields| :: FieldFits(StatusFields[i], Keys(labels)) && StatusFields[i].gauge in DeviceGauges
  {
  }

  lemma {:induction false} FieldWritesConform(labels: Labels, dev: Dict)
    requires Keys(labels) == ["device_sn", "name"]
    ensures AllConform(FieldWrites(labels, dev), DeviceGauges)
  {
    var battery := Fields(labels, dev, BatteryFields);
    var power := Categorical(DevicePower, labels, "type", PowerEntries(dev));
    assert Keys(labels) + ["type"] == DevicePower.labelNames;
    FieldTablesFit(labels);
    FieldsConform(labels, dev, BatteryFields, DeviceGauges);
    FieldsConform(labels, dev, StatusFields, DeviceGauges);
    PvConforms(labels, dev, 1);
    ConformAppend(battery, power, DeviceGauges);
    ConformAppend(battery + power, PvWrites(labels, dev, 1), DeviceGauges);
    ConformAppend(battery + power + PvWrites(labels, dev, 1), Fields(labels, dev, StatusFields), DeviceGauges);
  }

  /**
   Every write of a device names exactly the label names its gauge was
   declared with, in order, and goes to a declared device gauge.
   */
  lemma {:induction false} DeviceConforms(sn: string, dev: Dict)
    ensures AllConform(DeviceBlock(sn, dev), DeviceGauges)
  {
    FieldWritesConform(DeviceLabels(sn, dev), dev);
    ConformAppend([InfoWrite(sn, dev)], FieldWrites(DeviceLabels(sn, dev), dev), DeviceGauges);
  }

  lemma {:induction false} DevicesConform(devices: seq<(string, Dict)>)
    ensures AllConform(Devices(devices), DeviceGauges)
    decreases |devices|
  {
    if |devices| > 0 {
      DeviceConforms(devices[0].0, devices[0].1);
      DevicesConform(devices[1..]);
      ConformAppend(DeviceBlock(devices[0].0, devices[0].1), Devices(devices[1..]), DeviceGauges);
    }
  }
}
