/**
 The MQTT pass of the packaged exporter: every fifteen seconds, for each cloud
 device that has an MQTT device object, the last status that object decoded
 is turned into writes to the MQTT gauges. A status that is truthy but not a
 mapping makes the first `.get` raise, which ends the pass; the exception is
 caught around the whole pass, so the devices after it are skipped until the
 next pass.
 */
module Mqtt {
  import opened Json
  import opened Registry
  import opened Extract
  import opened Gauges
  import Device

  /** Seconds between two MQTT passes. */
  const MqttPeriod: nat := 15

  /** The `type` entries of the MQTT power gauge. */
  function PowerEntries(data: Dict): seq<(string, Value)> {
    [ ("photovoltaic", Get(data, "photovoltaic_power")),
      ("output", Get(data, "output_power")),
      ("battery_signed", Get(data, "battery_power_signed")),
      ("ac_output_signed", Get(data, "ac_output_power_signed")),
      ("grid_to_battery", Get(data, "grid_to_battery_power")),
      ("grid_signed", Get(data, "grid_power_signed")),
      ("home_demand", Get(data, "home_demand")),
      ("pv_1", Get(data, "pv_1_power")),
      ("pv_2", Get(data, "pv_2_power")),
      ("pv_3", Get(data, "pv_3_power")),
      ("pv_4", Get(data, "pv_4_power")),
      ("pv_3rd_party", Get(data, "pv_power_3rd_party")),
      ("grid_to_home", Get(data, "grid_to_home_power")),
      ("pv_to_grid", Get(data, "pv_to_grid_power")),
      ("heating", Get(data, "heating_power")) ]
  }

  /** The `type` entries of the MQTT energy gauge. */
  function EnergyEntries(data: Dict): seq<(string, Value)> {
    [ ("charged", Get(data, "charged_energy")),
      ("discharged", Get(data, "discharged_energy")),
      ("grid_import", Get(data, "grid_import_energy")),
      ("grid_export", Get(data, "grid_export_energy")),
      ("home_consumption", Get(data, "home_consumption")),
      ("pv_yield", Get(data, "pv_yield")),
      ("output", Get(data, "output_energy")),
      ("consumed", Get(data, "consumed_energy")) ]
  }

  /** The single-series MQTT fields, each read as it is. */
  const ScalarFields: seq<Field> := [
    Plain(MqttBatterySoc, "battery_soc"),
    Plain(MqttMainBatterySoc, "main_battery_soc"),
    Plain(MqttTemperature, "temperature"),
    Plain(MqttBatteryEfficiency, "battery_efficiency"),
    Plain(MqttDeviceEfficiency, "device_efficiency"),
    Plain(MqttWifiSignal, "wifi_signal"),
    Plain(MqttHomeLoadPreset, "home_load_preset"),
    Plain(MqttMaxLoad, "max_load"),
    Plain(MqttMaxLoadLegal, "max_load_legal"),
    Plain(MqttUtc, "utc_timestamp"),
    Plain(MqttMsg, "msg_timestamp") ]

  /** The writes of one decoded status: power types, energy types, then the single fields. */
  function DataWrites(labels: Labels, data: Dict): seq<Write> {
    Categorical(MqttPower, labels, "type", PowerEntries(data))
      + Categorical(MqttEnergy, labels, "type", EnergyEntries(data))
      + Fields(labels, data, ScalarFields)
  }

  /**
   One device's status: `status or {}` is checked for truthiness, so a falsy
   status writes nothing; a truthy mapping is written out; any other truthy
   value raises at its first `.get`, before anything is written.
   */
  function StatusBlock(sn: string, dev: Dict, status: Value): (e: Emit)
    ensures e.raised <==> Truthy(status) && !status.VMap?
    ensures !Truthy(status) ==> e.writes == []
    ensures Truthy(status) && status.VMap? ==>
      e.writes == DataWrites(Device.DeviceLabels(sn, dev), status.entries)
  {
    var data := Or(status, VMap([]));
    assert Truthy(data) == Truthy(status) && (Truthy(status) ==> data == status);
    if !Truthy(data) then Done([])
    else if !data.VMap? then Raise
    else Done(DataWrites(Device.DeviceLabels(sn, dev), data.entries))
  }

  /** The block of one cloud device: only devices with an MQTT device object take part. */
  function DeviceStatus(sn: string, dev: Dict, statuses: map<string, Value>): (e: Emit)
    ensures sn !in statuses ==> e == Done([])
    ensures sn in statuses ==> e == StatusBlock(sn, dev, statuses[sn])
  {
    if sn in statuses then StatusBlock(sn, dev, statuses[sn]) else Done([])
  }

  function PassBlocks(devices: seq<(string, Dict)>, statuses: map<string, Value>): (es: seq<Emit>)
    ensures |es| == |devices|
    ensures forall i | 0 <= i < |devices| :: es[i] == DeviceStatus(devices[i].0, devices[i].1, statuses)
  {
    seq(|devices|, i requires 0 <= i < |devices| => DeviceStatus(devices[i].0, devices[i].1, statuses))
  }

  /** A status that stops the pass: truthy, yet not a mapping. */
  predicate Malformed(status: Value) {
    Truthy(status) && !status.VMap?
  }

  /**
   One MQTT pass over the cloud devices, in order, given the status each MQTT
   device object currently holds (keyed by serial number). It raises exactly
   when some device in the pass has a malformed status.
   */
  function MqttPass(devices: seq<(string, Dict)>, statuses: map<string, Value>): (e: Emit)
    ensures e.raised <==> exists i | 0 <= i < |devices| :: devices[i].0 in statuses && Malformed(statuses[devices[i].0])
  {
    var es := PassBlocks(devices, statuses);
    assert forall i | 0 <= i < |devices| ::
      es[i].raised == (devices[i].0 in statuses && Malformed(statuses[devices[i].0]));
    Chain(es)
  }

  /** Devices without a status object, or whose status is falsy, contribute nothing to a pass. */
  lemma {:induction false} SilentDevicesWriteNothing(devices: seq<(string, Dict)>, statuses: map<string, Value>)
    requires forall i | 0 <= i < |devices| :: devices[i].0 !in statuses || !Truthy(statuses[devices[i].0])
    ensures MqttPass(devices, statuses) == Done([])
    decreases |devices|
  {
    var es := PassBlocks(devices, statuses);
    if |devices| > 0 {
      SilentDevicesWriteNothing(devices[1..], statuses);
      assert PassBlocks(devices[1..], statuses) == es[1..];
      assert Flatten(es) == es[0].writes + Flatten(es[1..]);
    }
  }

  lemma {:induction false} DataConforms(labels: Labels, data: Dict)
    requires Keys(labels) == ["device_sn", "name"]
    ensures AllConform(DataWrites(labels, data), MqttGauges)
  {
    var power := Categorical(MqttPower, labels, "type", PowerEntries(data));
    var energy := Categorical(MqttEnergy, labels, "type", EnergyEntries(data));
    assert Keys(labels) + ["type"] == MqttPower.labelNames == MqttEnergy.labelNames;
    assert forall i | 0 <= i < |ScalarFields| :: FieldFits(ScalarFields[i], Keys(labels)) && ScalarFields[i].gauge in MqttGauges;
    FieldsConform(labels, data, ScalarFields, MqttGauges);
    ConformAppend(power, energy, MqttGauges);
    ConformAppend(power + energy, Fields(labels, data, ScalarFields), MqttGauges);
  }

  /**
   Every write of an MQTT pass names exactly the label names its gauge was
   declared with, and goes to a declared MQTT gauge.
   */
  lemma {:induction false} PassConforms(devices: seq<(string, Dict)>, statuses: map<string, Value>)
    ensures AllConform(MqttPass(devices, statuses).writes, MqttGauges)
  {
    var es := PassBlocks(devices, statuses);
    forall i | 0 <= i < |es| ensures AllConform(es[i].writes, MqttGauges) {
      var (sn, dev) := devices[i];
      if sn in statuses && Truthy(statuses[sn]) && statuses[sn].VMap? {
        DataConforms(Device.DeviceLabels(sn, dev), statuses[sn].entries);
      }
    }
    ChainConforms(es, MqttGauges);
  }
}
