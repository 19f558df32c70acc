/**
 The gauges the packaged exporter declares at import time
 (src/anker_solix_prom_exporter/exporter.py, lines 100-298): name, help text
 and the fixed, ordered label names of each. Every write of the packaged
 exporter goes to one of these gauges.
 */
module Gauges {
  import opened Registry

  // Site gauges.
  const SitePower: Descriptor := Descriptor("anker_site_power_watts", "Site power metrics (W)", ["site_id", "site_name", "type"])
  const SiteDataValid: Descriptor := Descriptor("anker_site_data_valid", "Whether site data is valid (1) or not (0)", ["site_id", "site_name"])
  const SiteSoc: Descriptor := Descriptor("anker_site_total_battery_soc_percent", "Total Solarbank state-of-charge (percent)", ["site_id", "site_name"])
  const SiteUpdated: Descriptor := Descriptor("anker_site_updated_timestamp_seconds_total", "Last update timestamp of Solarbank info as seconds since the epoch", ["site_id", "site_name"])
  const SiteEnergyProduced: Descriptor := Descriptor("anker_site_energy_produced_kwh_total", "Total energy produced by the site (kWh)", ["site_id", "site_name"])
  const SiteEnergyToday: Descriptor := Descriptor("anker_site_energy_today_kwh_total", "Energy values for today (kWh)", ["site_id", "site_name", "type"])
  const SiteEnergyTodayPercent: Descriptor := Descriptor("anker_site_energy_today_percent", "Energy percentage values for today", ["site_id", "site_name", "type"])
  const SiteSavings: Descriptor := Descriptor("anker_site_total_savings_money", "Total monetary savings/revenue for the site", ["site_id", "site_name"])
  const SitePrice: Descriptor := Descriptor("anker_site_price", "Site energy price", ["site_id", "site_name", "price_type", "unit"])

  // Device gauges.
  const DeviceInfo: Descriptor := Descriptor("anker_device_info", "Static info about the device (always 1)", ["device_sn", "name", "device_pn", "generation", "sw_version"])
  const DeviceBatterySoc: Descriptor := Descriptor("anker_device_battery_soc_percent", "Device battery state-of-charge (percent)", ["device_sn", "name"])
  const DeviceBatteryEnergy: Descriptor := Descriptor("anker_device_battery_energy_wh", "Device battery energy (Wh)", ["device_sn", "name"])
  const DevicePower: Descriptor := Descriptor("anker_device_power_watts", "Device power metrics (W)", ["device_sn", "name", "type"])
  const DevicePv: Descriptor := Descriptor("anker_device_pv_power_watts", "PV string power (W)", ["device_sn", "name", "pv"])
  const DeviceWifiSignal: Descriptor := Descriptor("anker_device_wifi_signal_percent", "WiFi signal strength (percent)", ["device_sn", "name"])
  const DeviceWifiRssi: Descriptor := Descriptor("anker_device_wifi_rssi_dbm", "WiFi RSSI (dBm)", ["device_sn", "name"])
  const DeviceWifiOnline: Descriptor := Descriptor("anker_device_wifi_online", "WiFi connectivity (1 online, 0 offline)", ["device_sn", "name"])
  const DeviceWiredConnected: Descriptor := Descriptor("anker_device_wired_connected", "Wired connection present (1 yes, 0 no)", ["device_sn", "name"])
  const DeviceStatus: Descriptor := Descriptor("anker_device_status_code", "Device status code", ["device_sn", "name"])
  const DeviceCharging: Descriptor := Descriptor("anker_device_charging_status", "Charging status code", ["device_sn", "name", "desc"])
  const DeviceGridStatus: Descriptor := Descriptor("anker_device_grid_status_code", "Grid status code", ["device_sn", "name"])
  const DeviceDataValid: Descriptor := Descriptor("anker_device_data_valid", "Whether device data is valid (1) or not (0)", ["device_sn", "name"])
  const DeviceCapacity: Descriptor := Descriptor("anker_device_battery_capacity_wh", "Battery capacity (Wh)", ["device_sn", "name"])
  const DeviceSubPackage: Descriptor := Descriptor("anker_device_sub_package_num", "Sub package number", ["device_sn", "name"])

  // Gauges fed from the MQTT device status.
  const MqttPower: Descriptor := Descriptor("anker_device_mqtt_power_watts", "Device power metrics from MQTT (W)", ["device_sn", "name", "type"])
  const MqttEnergy: Descriptor := Descriptor("anker_device_mqtt_energy_total_kwh", "Device energy metrics from MQTT (kWh)", ["device_sn", "name", "type"])
  const MqttBatterySoc: Descriptor := Descriptor("anker_device_mqtt_battery_soc_percent", "Device battery SOC from MQTT (percent)", ["device_sn", "name"])
  const MqttMainBatterySoc: Descriptor := Descriptor("anker_device_mqtt_main_battery_soc_percent", "Device main battery SOC from MQTT (percent)", ["device_sn", "name"])
  const MqttTemperature: Descriptor := Descriptor("anker_device_mqtt_temperature_celsius", "Device temperature from MQTT (Celsius)", ["device_sn", "name"])
  const MqttBatteryEfficiency: Descriptor := Descriptor("anker_device_mqtt_battery_efficiency_percent", "Device battery efficiency from MQTT (percent)", ["device_sn", "name"])
  const MqttDeviceEfficiency: Descriptor := Descriptor("anker_device_mqtt_device_efficiency_percent", "Device efficiency from MQTT (percent)", ["device_sn", "name"])
  const MqttWifiSignal: Descriptor := Descriptor("anker_device_mqtt_wifi_signal_percent", "Device WiFi signal from MQTT (percent)", ["device_sn", "name"])
  const MqttHomeLoadPreset: Descriptor := Descriptor("anker_device_mqtt_home_load_preset_watts", "Device home load preset from MQTT (W)", ["device_sn", "name"])
  const MqttMaxLoad: Descriptor := Descriptor("anker_device_mqtt_max_load_watts", "Device max load from MQTT (W)", ["device_sn", "name"])
  const MqttMaxLoadLegal: Descriptor := Descriptor("anker_device_mqtt_max_load_legal_watts", "Device max load legal from MQTT (W)", ["device_sn", "name"])
  const MqttLastUpdate: Descriptor := Descriptor("anker_device_mqtt_last_update_timestamp", "Last update timestamp from MQTT", ["device_sn", "name"])
  const MqttUtc: Descriptor := Descriptor("anker_device_mqtt_utc_timestamp", "UTC timestamp from MQTT", ["device_sn", "name"])
  const MqttMsg: Descriptor := Descriptor("anker_device_mqtt_msg_timestamp", "Message timestamp from MQTT", ["device_sn", "name"])

  /** The gauges the site block writes to. */
  const SiteGauges: set<Descriptor> := {
    SitePower, SiteDataValid, SiteSoc, SiteEnergyProduced, SiteEnergyToday,
    SiteEnergyTodayPercent, SiteSavings, SitePrice }

  /** The site gauges the statistics, price and energy parts write to. */
  const TailGauges: set<Descriptor> := {SiteEnergyProduced, SiteSavings, SitePrice, SiteEnergyToday, SiteEnergyTodayPercent}

  /**
   The site gauges have different names, so no two of them share a key: the
   power, validity and state-of-charge gauges differ from each other and from
   the statistics, price and energy gauges.
   */
  lemma {:induction false} SiteKeysDistinct()
    ensures KeyOf(SitePower) != KeyOf(SiteDataValid) && KeyOf(SitePower) != KeyOf(SiteSoc)
    ensures KeyOf(SiteDataValid) != KeyOf(SiteSoc)
    ensures forall d | d in TailGauges ::
      KeyOf(d) != KeyOf(SitePower) && KeyOf(d) != KeyOf(SiteDataValid) && KeyOf(d) != KeyOf(SiteSoc)
  {
    assert SitePower.name[11] != SiteDataValid.name[11] && SitePower.name[11] != SiteSoc.name[11];
    assert SiteDataValid.name[11] != SiteSoc.name[11];
    assert SitePrice.name[13] != SitePower.name[13];
    assert SiteSavings.name[17] != SiteSoc.name[17];
  }

  /** The gauges the device block writes to. */
  const DeviceGauges: set<Descriptor> := {
    DeviceInfo, DeviceBatterySoc, DeviceBatteryEnergy, DevicePower, DevicePv,
    DeviceWifiSignal, DeviceWifiRssi, DeviceWifiOnline, DeviceWiredConnected, DeviceStatus,
    DeviceCharging, DeviceGridStatus, DeviceDataValid, DeviceCapacity, DeviceSubPackage }

  /** The gauges the MQTT loop writes to. */
  const MqttGauges: set<Descriptor> := {
    MqttPower, MqttEnergy, MqttBatterySoc, MqttMainBatterySoc, MqttTemperature,
    MqttBatteryEfficiency, MqttDeviceEfficiency, MqttWifiSignal, MqttHomeLoadPreset,
    MqttMaxLoad, MqttMaxLoadLegal, MqttUtc, MqttMsg }

  /** Every declared gauge; the updated-time and last-update gauges are fed by timestamps only. */
  const Declared: set<Descriptor> := SiteGauges + DeviceGauges + MqttGauges + {SiteUpdated, MqttLastUpdate}

  /** A registry that holds a gauge for every declared descriptor, as it does from import on. */
  predicate HoldsDeclared(r: Registry) {
    forall d | d in Declared :: KeyOf(d) in r
  }

  /**
   Import-time declaration: each descriptor's gauge is created, empty, unless
   a gauge with its key already exists; existing gauges are kept as they are.
   */
  function Declare(r: Registry, ds: seq<Descriptor>): (r': Registry)
    ensures r'.Keys == r.Keys + set d | d in ds :: KeyOf(d)
    ensures forall k | k in r :: r'[k] == r[k]
    ensures forall k | k in r' && k !in r :: r'[k].series == map[]
    decreases |ds|
  {
    if |ds| == 0 then r
    else
      var r1 := Declare(GetGauge(r, ds[0]).0, ds[1..]);
      assert forall d | d in ds :: d == ds[0] || d in ds[1..];
      r1
  }
}
