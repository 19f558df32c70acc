/**
 One polling cycle of the packaged exporter, and the interleaving of cycles
 with MQTT passes. A cycle first refreshes the cloud caches; if that raises,
 nothing is written. Otherwise the site loop runs and then the device loop;
 an exception in the site loop ends the cycle, keeping what was already
 written. The extraction code of a cycle and an MQTT pass contains no await,
 so on the single event loop each runs as a whole, and the registry evolves
 by whole cycles and whole passes in some order.
 */
module Cycle {
  import opened Json
  import opened Registry
  import opened Extract
  import opened Gauges
  import Site
  import Device
  import Mqtt
  import Schedule

  /** The cached cloud snapshot a cycle reads: sites and devices, each keyed, in dict order. */
  datatype Snapshot = Snapshot(sites: seq<(string, Dict)>, devices: seq<(string, Dict)>)

  /**
   A cycle. `refreshed` is false when one of the cache refreshes raised, in
   which case the cycle ends before any write. Otherwise the site writes come
   first and the device writes follow unless some site was malformed; a
   malformed site ends the cycle with no device write.
   */
  function Run(refreshed: bool, snap: Snapshot): (e: Emit)
    ensures !refreshed ==> e.raised && e.writes == []
    ensures refreshed ==> (e.raised <==> exists i | 0 <= i < |snap.sites| :: !Site.WellShaped(snap.sites[i].1))
    ensures refreshed ==> Site.Sites(snap.sites).writes <= e.writes
    ensures refreshed && e.raised ==> e.writes == Site.Sites(snap.sites).writes
    ensures !e.raised ==> e.writes == Site.Sites(snap.sites).writes + Device.Devices(snap.devices)
  {
    if !refreshed then Raise else Then(Site.Sites(snap.sites), Done(Device.Devices(snap.devices)))
  }

  /** Every write of a cycle conforms to a site or device gauge. */
  lemma {:induction false} RunConforms(refreshed: bool, snap: Snapshot)
    ensures AllConform(Run(refreshed, snap).writes, SiteGauges + DeviceGauges)
  {
    var sites := Site.Sites(snap.sites);
    var devices := Device.Devices(snap.devices);
    Site.SitesConform(snap.sites);
    Device.DevicesConform(snap.devices);
    Widen(sites.writes, SiteGauges, SiteGauges + DeviceGauges);
    Widen(devices, DeviceGauges, SiteGauges + DeviceGauges);
    ThenConforms(sites, Done(devices), SiteGauges + DeviceGauges);
  }

  lemma {:induction false} Widen(ws: seq<Write>, ds: set<Descriptor>, wider: set<Descriptor>)
    requires AllConform(ws, ds) && ds <= wider
    ensures AllConform(ws, wider)
  {
  }

  /**
   Writes that conform to declared gauges create no gauge in a registry that
   holds every declared one: the set of gauges is left as it was.
   */
  lemma {:induction false} DeclaredWritesKeepKeys(r: Registry, ws: seq<Write>, ds: set<Descriptor>)
    requires HoldsDeclared(r) && ds <= Declared && AllConform(ws, ds)
    ensures Apply(r, ws).Keys == r.Keys
  {
    ApplyKeys(r, ws);
    ConformingTouches(ws, ds);
    forall k | k in Touched(ws) ensures k in r {
      var d :| d in ds && KeyOf(d) == k;
    }
  }

  /** One round of the polling loop: the refresh outcome and the snapshot it reads. */
  function RunRound(round: (bool, Snapshot)): Emit {
    Run(round.0, round.1)
  }

  /** The writes of any number of cycles conform to the declared site and device gauges. */
  lemma {:induction false} LoopWritesConform(rounds: seq<(bool, Snapshot)>)
    ensures AllConform(Schedule.LoopWrites(rounds, RunRound), SiteGauges + DeviceGauges)
    decreases |rounds|
  {
    if |rounds| > 0 {
      RunConforms(rounds[0].0, rounds[0].1);
      LoopWritesConform(rounds[1..]);
      ConformAppend(RunRound(rounds[0]).writes, Schedule.LoopWrites(rounds[1..], RunRound), SiteGauges + DeviceGauges);
    }
  }

  /**
   Once every declared gauge exists, the polling loop, over any rounds and
   whatever each cycle raised, never creates another gauge.
   */
  lemma {:induction false} PollingKeepsDeclared(r: Registry, rounds: seq<(bool, Snapshot)>, interval: int)
    requires HoldsDeclared(r)
    ensures Schedule.Loop(r, rounds, RunRound, interval).0.Keys == r.Keys
  {
    Schedule.LoopApplies(r, rounds, RunRound, interval);
    LoopWritesConform(rounds);
    DeclaredWritesKeepKeys(r, Schedule.LoopWrites(rounds, RunRound), SiteGauges + DeviceGauges);
  }

  /** What the event loop runs next: a polling cycle or an MQTT pass. */
  datatype Step =
    | Poll(refreshed: bool, snap: Snapshot)
    | Pass(devices: seq<(string, Dict)>, statuses: map<string, Value>)

  /** The writes one step makes. */
  function StepWrites(s: Step): seq<Write> {
    match s
    case Poll(refreshed, snap) => Run(refreshed, snap).writes
    case Pass(devices, statuses) => Mqtt.MqttPass(devices, statuses).writes
  }

  /** The registry after running the steps in order from r. */
  function Steps(r: Registry, steps: seq<Step>): Registry
    decreases |steps|
  {
    if |steps| == 0 then r else Steps(Apply(r, StepWrites(steps[0])), steps[1..])
  }

  lemma {:induction false} StepKeepsKeys(r: Registry, s: Step)
    requires HoldsDeclared(r)
    ensures Apply(r, StepWrites(s)).Keys == r.Keys
  {
    match s
    case Poll(refreshed, snap) =>
      RunConforms(refreshed, snap);
      DeclaredWritesKeepKeys(r, StepWrites(s), SiteGauges + DeviceGauges);
    case Pass(devices, statuses) =>
      Mqtt.PassConforms(devices, statuses);
      DeclaredWritesKeepKeys(r, StepWrites(s), MqttGauges);
  }

  /**
   Once every declared gauge exists, as it does from import on, no cycle and
   no MQTT pass ever creates another gauge, whatever the snapshots hold and
   however the steps interleave.
   */
  lemma {:induction false} StepsKeepKeys(r: Registry, steps: seq<Step>)
    requires HoldsDeclared(r)
    ensures Steps(r, steps).Keys == r.Keys
    decreases |steps|
  {
    if |steps| > 0 {
      StepKeepsKeys(r, steps[0]);
      var r1 := Apply(r, StepWrites(steps[0]));
      assert HoldsDeclared(r1);
      StepsKeepKeys(r1, steps[1..]);
    }
  }

  /** Declaring every declared descriptor, in any order and from any registry, gives a registry that holds them all. */
  lemma {:induction false} DeclareHolds(r: Registry, ds: seq<Descriptor>)
    requires forall d | d in Declared :: d in ds
    ensures HoldsDeclared(Declare(r, ds))
  {
  }

  /**
   From start-up on: once the import-time declarations have run on the empty
   registry, no interleaving of cycles and MQTT passes ever creates a gauge,
   so the gauges are exactly the declared ones.
   */
  lemma {:induction false} StartupKeepsDeclared(ds: seq<Descriptor>, steps: seq<Step>)
    requires forall d | d in Declared :: d in ds
    ensures Steps(Declare(map[], ds), steps).Keys == set d | d in ds :: KeyOf(d)
  {
    DeclareHolds(map[], ds);
    StepsKeepKeys(Declare(map[], ds), steps);
  }
}
