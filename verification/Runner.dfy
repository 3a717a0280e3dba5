/**
 * The device scheduler of the test runner: registered devices, the bounded number of hosts with its
 * first-in first-out queue, the pool of nine gateway sets shared by device group, and the port
 * traffic table that a cancelled device is taken out of.
 */
module Runner {
  import opened Octets

  const MAX_GATEWAYS := 9

  type Mac = string
  type Group = string
  type Port = p: nat | p > 0 witness 1

  /**
   * Run options. No host limit is an unbounded one; a run limit of zero is none. A runner learns its
   * devices on VLANs or on ports, never both, and may have a server for remote sessions.
   */
  datatype Config = Config(
    maxHosts: Option<nat>, failMode: bool, singleShot: bool, runLimit: nat, vlanMode: bool, server: bool)

  datatype Device = Device(
    port: Option<Port>, external: bool, setId: Option<nat>,
    group: Option<Group>, gateway: Option<nat>, host: bool, waitRemote: bool)

  /** A gateway object; `targets` are the devices attached to it. */
  datatype Gateway = Gateway(name: Group, portSet: nat, targets: set<Mac>, activated: bool)

  /** What a port's traffic was directed for. */
  datatype Entry = Entry(mac: Mac, group: Option<Group>, portSet: nat)

  datatype State = State(
    devices: map<Mac, Device>, setIds: set<nat>,
    gatewaySets: set<nat>, gateways: map<nat, Gateway>, nextGateway: nat,
    queue: seq<Mac>, directed: map<Port, Entry>,
    systemActive: bool, runTests: bool, runCount: nat)

  /** Which foreign call of an activation fails, if any. */
  datatype Failure = NoFailure | GatewayInit | HostBuild | HostInit | Traffic

  /** What an activation meets: the device's group, its port's state, the set popped, a failure. */
  datatype Env = Env(group: Group, portActive: bool, pick: nat, failure: Failure)

  const INITIAL := State(map[], {}, {1, 2, 3, 4, 5, 6, 7, 8, 9}, map[], 0, [], map[], false, true, 0)

  // ---- devices --------------------------------------------------------------------------------

  function LeastFree(ids: set<nat>, from: nat): (r: nat)
    ensures r >= from && r !in ids && forall k :: from <= k < r ==> k in ids
    decreases AtLeast(ids, from)
  {
    if from !in ids then from
    else
      assert from in AtLeast(ids, from) && from !in AtLeast(ids, from + 1);
      LeastFree(ids, from + 1)
  }

  ghost function AtLeast(ids: set<nat>, from: nat): set<nat>
  {
    set k | k in ids && k >= from
  }

  /** The set id a new device asks for: its port number, or the lowest free one. */
  function WantedId(s: State, port: Option<Port>): nat
  {
    if port.Some? then port.value else LeastFree(s.setIds, 1)
  }

  /** Registers an unknown device. A clash of set ids is noticed only after the registration. */
  function Create(s: State, mac: Mac, port: Option<Port>): (r: State)
    ensures mac in r.devices
  {
    if mac in s.devices then s
    else
      var id := WantedId(s, port);
      var clash := id in s.setIds;
      var device := Device(port, false, if clash then None else Some(id), None, None, false, false);
      s.(devices := s.devices[mac := device], setIds := if clash then s.setIds else s.setIds + {id})
  }

  /**
   * A device seen on a VLAN, or announced by a session: registered if unknown, with DHCP of its own.
   * One that is to wait for its remote trigger, and does not yet, loses its port.
   */
  function LearnDevice(s: State, mac: Mac, waits: bool): State
  {
    var t := Create(s, mac, None);
    t.(devices := t.devices[mac := Learned(t.devices[mac], waits)])
  }

  function Learned(d: Device, waits: bool): Device
  {
    if waits && !d.waitRemote then d.(external := true, port := None, waitRemote := true) else d.(external := true)
  }

  function Hosted(devices: map<Mac, Device>): set<Mac>
  {
    set m | m in devices && devices[m].host
  }

  predicate HasCapacity(c: Config, s: State)
  {
    c.maxHosts.None? || |Hosted(s.devices)| < c.maxHosts.value
  }

  // ---- end of a device ------------------------------------------------------------------------

  /** Takes a device off its gateway; the last one retires the gateway and frees its set. */
  function Detach(s: State, mac: Mac, id: nat): (r: State)
    ensures r.queue == s.queue
  {
    if id !in s.gateways || mac !in s.gateways[id].targets then s  // an assertion fires
    else
      var g := s.gateways[id];
      if g.targets - {mac} == {} then
        s.(gateways := s.gateways - {id}, gatewaySets := s.gatewaySets + {g.portSet})
      else s.(gateways := s.gateways[id := g.(targets := g.targets - {mac})])
  }

  function FirstIndex(s: seq<Mac>, x: Mac): (k: nat)
    requires x in s
    ensures k < |s| && s[k] == x
  {
    if s[0] == x then 0 else 1 + FirstIndex(s[1..], x)
  }

  /** `list.remove`, for an element that may be absent. */
  function Remove(s: seq<Mac>, x: Mac): seq<Mac>
  {
    if x !in s then s else s[..FirstIndex(s, x)] + s[FirstIndex(s, x) + 1..]
  }

  /**
   * The device leaves the registry; its results may end the run. Without a set id the last part of
   * the removal raises, and so does the call.
   */
  function Finalize(c: Config, s: State, mac: Mac, failed: bool): (r: State)
    requires mac in s.devices
    ensures r.queue == s.queue
  {
    var d := s.devices[mac];
    s.(devices := s.devices - {mac},
       setIds := if d.setId.Some? then s.setIds - {d.setId.value} else s.setIds,
       runTests := s.runTests && !(failed && c.failMode) && !(c.runLimit > 0 && s.runCount >= c.runLimit)
                   && !c.singleShot)
  }

  /**
   * Cancels a device with a host. Undirecting the traffic of a port that has none directed raises,
   * and then the gateway keeps the device.
   */
  function Cancel(s: State, mac: Mac): (r: State)
    requires mac in s.devices
    ensures r.queue == Remove(s.queue, mac)
  {
    var (d, t) := (s.devices[mac], s.(queue := Remove(s.queue, mac)));
    if !d.host || (d.port.Some? && d.port.value !in s.directed) then t
    else
      var u := if d.port.Some? then t.(directed := t.directed - {d.port.value}) else t;
      if d.gateway.Some? then Detach(u, mac, d.gateway.value) else u
  }

  function Complete(c: Config, s: State, mac: Mac, failed: bool): (r: State)
    requires mac in s.devices
    ensures r.queue == Remove(s.queue, mac)
  {
    Finalize(c, Cancel(s, mac), mac, failed)
  }

  // ---- activation -----------------------------------------------------------------------------

  function Existing(s: State, group: Group): set<nat>
  {
    set m | m in s.devices && s.devices[m].group == Some(group) && s.devices[m].gateway.Some?
      :: s.devices[m].gateway.value
  }

  function ChosenSet(s: State, d: Device, pick: nat): nat
  {
    if d.port.Some? && d.port.value in s.gatewaySets then d.port.value else pick
  }

  /** The set popped is one of the free ones. */
  predicate PickIsFree(s: State, env: Env)
  {
    s.gatewaySets == {} || env.pick in s.gatewaySets
  }

  function NewGateway(s: State, group: Group, portSet: nat): State
  {
    s.(gatewaySets := s.gatewaySets - {portSet},
       gateways := s.gateways[s.nextGateway := Gateway(group, portSet, {}, false)],
       nextGateway := s.nextGateway + 1)
  }

  function Attach(s: State, mac: Mac, id: nat): State
    requires mac in s.devices && id in s.gateways
  {
    var g := s.gateways[id];
    s.(gateways := s.gateways[id := g.(targets := g.targets + {mac})],
       devices := s.devices[mac := s.devices[mac].(gateway := Some(id))],
       runCount := s.runCount + 1)
  }

  function WithHost(s: State, mac: Mac): State
    requires mac in s.devices
  {
    s.(devices := s.devices[mac := s.devices[mac].(host := true)])
  }

  function EntryFor(s: State, mac: Mac, id: nat): Entry
    requires mac in s.devices && id in s.gateways
  {
    Entry(mac, s.devices[mac].group, s.gateways[id].portSet)
  }

  /** The port's traffic is already directed for something else. */
  predicate Conflicts(s: State, mac: Mac, id: nat)
    requires mac in s.devices && id in s.gateways
  {
    var port := s.devices[mac].port;
    port.Some? && port.value in s.directed && s.directed[port.value] != EntryFor(s, mac, id)
  }

  /** A device that got its host and had its traffic directed. */
  function Running(s: State, mac: Mac, id: nat): State
    requires mac in s.devices && id in s.gateways
  {
    var u := WithHost(s, mac);
    if s.devices[mac].port.None? then u
    else u.(directed := u.directed[s.devices[mac].port.value := EntryFor(s, mac, id)])
  }

  /** From the attached device to a running host, or to the device's end. */
  function Launch(c: Config, s: State, mac: Mac, id: nat, failure: Failure): (r: State)
    requires mac in s.devices && id in s.gateways
    ensures mac !in s.queue ==> r.queue == s.queue
  {
    var d := s.devices[mac];
    if failure == HostBuild then
      var t := Finalize(c, s, mac, true);
      if d.setId.None? then t else Detach(t, mac, id)
    else if failure == HostInit || Conflicts(s, mac, id) then Complete(c, WithHost(s, mac), mac, true)
    else if failure == Traffic then Complete(c, Running(s, mac, id), mac, true)
    else Running(s, mac, id)
  }

  /** A gateway already activated takes no more devices, but for those with their own DHCP. */
  function Join(c: Config, s: State, mac: Mac, id: nat, failure: Failure): (r: State)
    requires mac in s.devices
    ensures mac !in s.queue ==> r.queue == s.queue
  {
    if id !in s.gateways || (s.gateways[id].activated && !s.devices[mac].external) || mac in s.gateways[id].targets
    then s
    else Launch(c, Attach(s, mac, id), mac, id, failure)
  }

  /** An activation, whatever comes of it, does not touch the queue. */
  ghost function Activate(c: Config, s: State, mac: Mac, env: Env): (r: State)
    requires mac in s.devices
    ensures mac !in s.queue ==> r.queue == s.queue
  {
    var d := s.devices[mac];
    if d.port.Some? && !env.portActive then s  // an assertion fires
    else
      var t := s.(devices := s.devices[mac := d.(group := Some(env.group))]);
      var existing := Existing(t, env.group);
      if |existing| > 1 || (existing == {} && (s.gatewaySets == {} || env.failure == GatewayInit)) then
        t.(runTests := t.runTests && !c.failMode)
      else
        var isNew := existing == {};
        var id := if isNew then t.nextGateway else var g :| g in existing; g;
        var u := if isNew then NewGateway(t, env.group, ChosenSet(t, d, env.pick)) else t;
        Join(c, u, mac, id, env.failure)
  }

  ghost function Trigger(c: Config, s: State, mac: Mac, remote: bool, env: Env): State
    requires mac in s.devices
  {
    var d := s.devices[mac];
    if !s.systemActive || d.host || !s.runTests || (d.waitRemote && !remote) || mac in s.queue then s
    else
      var t := s.(devices := s.devices[mac := d.(waitRemote := false)]);
      if HasCapacity(c, t) then Activate(c, t, mac, env) else t.(queue := t.queue + [mac])
  }

  ghost function Consider(c: Config, s: State, env: Env): State
    requires forall m <- s.queue :: m in s.devices
  {
    if s.queue == [] || !HasCapacity(c, s) then s
    else Activate(c, s.(queue := s.queue[1..]), s.queue[0], env)
  }

  // ---- the runner object ----------------------------------------------------------------------

  class DaqRunner {
    const config: Config
    var devices: map<Mac, Device>
    var setIds: set<nat>
    var gatewaySets: set<nat>
    var gateways: map<nat, Gateway>
    var nextGateway: nat
    var queue: seq<Mac>
    var directed: map<Port, Entry>
    var systemActive: bool
    var runTests: bool
    var runCount: nat

    constructor (config: Config)
      ensures this.config == config && Value() == INITIAL
    {
      this.config := config;
      devices, setIds, queue, directed := map[], {}, [], map[];
      gatewaySets, gateways, nextGateway := INITIAL.gatewaySets, map[], 0;
      systemActive, runTests, runCount := false, true, 0;
    }

    function Value(): State
      reads this
    {
      State(devices, setIds, gatewaySets, gateways, nextGateway, queue, directed, systemActive, runTests, runCount)
    }

    method AllocateSetId() returns (id: nat)
      ensures id == LeastFree(setIds, 1)
    {
      id := 1;
      while id in setIds
        invariant LeastFree(setIds, id) == LeastFree(setIds, 1)
        decreases AtLeast(setIds, id)
      {
        assert id in AtLeast(setIds, id) && id !in AtLeast(setIds, id + 1);
        id := id + 1;
      }
    }

    /** Fails on a clash of set ids, with the device already in the registry. */
    method CreateIfAbsent(mac: Mac, port: Option<Port>) returns (ok: bool)
      modifies `devices, `setIds
      ensures Value() == Create(old(Value()), mac, port)
      ensures !ok <==> mac !in old(devices) && port.Some? && port.value in old(setIds)
    {
      if mac in devices {
        return true;
      }
      var device := Device(port, false, None, None, None, false, false);
      devices := devices[mac := device];
      var id;
      if port.Some? {
        id := port.value;
      } else {
        id := AllocateSetId();
      }
      if id in setIds {
        return false;
      }
      setIds := setIds + {id};
      devices := devices[mac := device.(setId := Some(id))];
      return true;
    }

    method HandleDeviceLearn(mac: Mac)
      modifies `devices, `setIds
      ensures Value() == LearnDevice(old(Value()), mac, config.server)
    {
      var ok := CreateIfAbsent(mac, None);
      var device := devices[mac].(external := true);
      if config.server && !device.waitRemote {
        device := device.(port := None, waitRemote := true);
      }
      devices := devices[mac := device];
    }

    method HandleSession(mac: Mac)
      modifies `devices, `setIds
      ensures Value() == LearnDevice(old(Value()), mac, false)
    {
      var ok := CreateIfAbsent(mac, None);
      devices := devices[mac := devices[mac].(external := true)];
    }

    method DetachGateway(mac: Mac, id: nat)
      modifies `gateways, `gatewaySets
      ensures Value() == Detach(old(Value()), mac, id)
    {
      if id in gateways && mac in gateways[id].targets {
        var gateway := gateways[id];
        gateway := gateway.(targets := gateway.targets - {mac});
        if gateway.targets == {} {
          gateways := gateways - {id};
          gatewaySets := gatewaySets + {gateway.portSet};
        } else {
          gateways := gateways[id := gateway];
        }
      }
    }

    /** Fails, with the device already out of the registry, when it has no set id. */
    method TargetSetFinalize(mac: Mac, failed: bool) returns (ok: bool)
      requires mac in devices
      modifies `devices, `setIds, `runTests
      ensures ok == old(devices[mac].setId.Some?)
      ensures Value() == Finalize(config, old(Value()), mac, failed)
    {
      if failed && config.failMode {
        runTests := false;
      }
      if config.runLimit > 0 && runCount >= config.runLimit && runTests {
        runTests := false;
      }
      if config.singleShot && runTests {
        runTests := false;
      }
      var setId := devices[mac].setId;
      devices := devices - {mac};
      if setId.None? {
        return false;
      }
      setIds := setIds - {setId.value};
      return true;
    }

    method TargetSetCancel(mac: Mac)
      requires mac in devices
      modifies `queue, `directed, `gateways, `gatewaySets
      ensures Value() == Cancel(old(Value()), mac)
    {
      if mac in queue {
        var k := FirstIndex(queue, mac);
        queue := queue[..k] + queue[k + 1..];
      }
      var device := devices[mac];
      if !device.host {
        return;
      }
      if device.port.Some? {
        if device.port.value !in directed {
          return;  // undirecting raises, and the rest is skipped
        }
        directed := directed - {device.port.value};
      }
      if device.gateway.Some? {
        DetachGateway(mac, device.gateway.value);
      }
    }

    method TargetSetComplete(mac: Mac, failed: bool)
      requires mac in devices
      modifies this
      ensures Value() == Complete(config, old(Value()), mac, failed)
    {
      TargetSetCancel(mac);
      var ok := TargetSetFinalize(mac, failed);
    }

    /** The gateway of the device's group, or a new one on a free set. */
    method CreateGateway(mac: Mac, env: Env) returns (id: Option<nat>)
      requires mac in devices && devices[mac].group == Some(env.group)
      modifies `gatewaySets, `gateways, `nextGateway
      ensures var (s, existing) := (old(Value()), Existing(old(Value()), env.group));
              if |existing| > 1 || (existing == {} && (s.gatewaySets == {} || env.failure == GatewayInit)) then
                id == None && Value() == s
              else if existing == {} then
                id == Some(s.nextGateway) && Value() == NewGateway(s, env.group, ChosenSet(s, s.devices[mac], env.pick))
              else id.Some? && existing == {id.value} && Value() == s
    {
      var existing := set m | m in devices && devices[m].group == Some(env.group) && devices[m].gateway.Some?
                        :: devices[m].gateway.value;
      assert existing == Existing(Value(), env.group);
      if |existing| > 1 {
        return None;
      }
      if existing != {} {
        var one :| one in existing;
        assert |existing - {one}| == 0;
        return Some(one);
      }
      if gatewaySets == {} || env.failure == GatewayInit {
        return None;
      }
      var port := devices[mac].port;
      var portSet := if port.Some? && port.value in gatewaySets then port.value else env.pick;
      gatewaySets := gatewaySets - {portSet};
      gateways := gateways[nextGateway := Gateway(env.group, portSet, {}, false)];
      nextGateway := nextGateway + 1;
      return Some(nextGateway - 1);
    }

    method LaunchHost(mac: Mac, id: nat, failure: Failure)
      requires mac in devices && id in gateways
      modifies this
      ensures Value() == Launch(config, old(Value()), mac, id, failure)
    {
      if failure == HostBuild {
        var ok := TargetSetFinalize(mac, true);
        if ok {
          DetachGateway(mac, id);
        }
        return;
      }
      var (port, target) := (devices[mac].port, Entry(mac, devices[mac].group, gateways[id].portSet));
      devices := devices[mac := devices[mac].(host := true)];
      if failure == HostInit || (port.Some? && port.value in directed && directed[port.value] != target) {
        TargetSetComplete(mac, true);
        return;
      }
      if port.Some? {
        directed := directed[port.value := target];
      }
      if failure == Traffic {
        TargetSetComplete(mac, true);
      }
    }

    method TargetSetActivate(mac: Mac, env: Env)
      requires mac in devices
      modifies this
      ensures Value() == Activate(config, old(Value()), mac, env)
    {
      var device := devices[mac];
      if device.port.Some? && !env.portActive {
        return;
      }
      devices := devices[mac := device.(group := Some(env.group))];
      var found := CreateGateway(mac, env);
      if found.None? {
        if config.failMode {
          runTests := false;
        }
        return;
      }
      JoinGateway(mac, found.value, env.failure);
    }

    method JoinGateway(mac: Mac, id: nat, failure: Failure)
      requires mac in devices
      modifies this
      ensures Value() == Join(config, old(Value()), mac, id, failure)
    {
      if id !in gateways || (gateways[id].activated && !devices[mac].external) || mac in gateways[id].targets {
        return;
      }
      AttachTarget(mac, id);
      LaunchHost(mac, id, failure);
    }

    method AttachTarget(mac: Mac, id: nat)
      requires mac in devices && id in gateways
      modifies `gateways, `devices, `runCount
      ensures Value() == Attach(old(Value()), mac, id)
    {
      gateways := gateways[id := gateways[id].(targets := gateways[id].targets + {mac})];
      devices := devices[mac := devices[mac].(gateway := Some(id))];
      runCount := runCount + 1;
    }

    method TargetSetTrigger(mac: Mac, remote: bool, env: Env)
      requires mac in devices
      modifies this
      ensures Value() == Trigger(config, old(Value()), mac, remote, env)
    {
      var device := devices[mac];
      if !systemActive || device.host || !runTests || (device.waitRemote && !remote) || mac in queue {
        return;
      }
      devices := devices[mac := device.(waitRemote := false)];
      var triggered := set m | m in devices && devices[m].host;
      assert triggered == Hosted(devices);
      if config.maxHosts.None? || |triggered| < config.maxHosts.value {
        TargetSetActivate(mac, env);
      } else {
        queue := queue + [mac];
      }
    }

    method TargetSetConsider(env: Env)
      requires forall m <- queue :: m in devices
      modifies this
      ensures Value() == Consider(config, old(Value()), env)
    {
      var triggered := set m | m in devices && devices[m].host;
      assert triggered == Hosted(devices);
      if queue != [] && (config.maxHosts.None? || |triggered| < config.maxHosts.value) {
        var mac := queue[0];
        queue := queue[1..];
        TargetSetActivate(mac, env);
      }
    }
  }
}
