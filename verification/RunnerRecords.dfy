/**
 * The scheduler's records over every run: who is put on the queue and who is taken off it, which set ids
 * are in use, what is written down about a learned device, and what a gateway keeps for its life.
 */
module RunnerRecords {
  import opened Octets
  import opened Runner
  import opened RunnerRuns
  import opened RunnerQueue
  import opened RunnerLeaks
  import opened RunnerLaws

  // ---- the queue --------------------------------------------------------------------------------

  /** A trigger that is taken while there is no room. */
  ghost predicate Queues(c: Config, s: State, e: Event)
  {
    && e.TriggerDevice? && e.mac in s.devices && PickIsFree(s, e.env) && s.systemActive && s.runTests
    && !s.devices[e.mac].host && (s.devices[e.mac].waitRemote ==> e.remote) && e.mac !in s.queue && !HasCapacity(c, s)
  }

  lemma TriggerQueue(c: Config, s: State, e: Event)
    requires Waiting(s.devices, s.queue) && e.TriggerDevice?
    ensures Step(c, s, e).queue == if Queues(c, s, e) then s.queue + [e.mac] else s.queue
  {
    if e.mac in s.devices && !s.devices[e.mac].host {
      assert Hosted(Taken(s, e.mac).devices) == Hosted(s.devices);
    }
  }

  lemma ConsiderQueueIs(c: Config, s: State, e: Event)
    requires Waiting(s.devices, s.queue) && e.ConsiderQueue?
    ensures Step(c, s, e).queue
            == if s.queue != [] && PickIsFree(s, e.env) && HasCapacity(c, s) then s.queue[1..] else s.queue
  {
    if s.queue != [] {
      DequeueKeeps(s.devices, s.queue);
    }
  }

  /** The queue after a step: longer by a trigger without room, shorter by a turn with room, else the same. */
  lemma QueueIs(c: Config, s: State, e: Event)
    requires Waiting(s.devices, s.queue)
    ensures Step(c, s, e).queue
            == if Queues(c, s, e) then s.queue + [e.mac]
               else if e.ConsiderQueue? && s.queue != [] && PickIsFree(s, e.env) && HasCapacity(c, s) then s.queue[1..]
               else s.queue
  {
    match e
    case TriggerDevice(m, remote, env) => TriggerQueue(c, s, e);
    case ConsiderQueue(env) => ConsiderQueueIs(c, s, e);
    case Finish(m, failed) =>
      if m in s.devices && s.devices[m].host {
        HostedIsNotQueued(s.devices, s.queue, m);
      }
    case _ =>
  }

  // ---- set ids ----------------------------------------------------------------------------------

  ghost predicate HasId(devices: Devices, m: Mac, i: nat)
  {
    m in devices && devices[m].setId == Some(i)
  }

  /** A set id is in use if and only if a registered device has it, and then only one. */
  ghost predicate IdsInUse(devices: Devices, ids: set<nat>)
  {
    && (forall i :: i in ids <==> exists m :: HasId(devices, m, i))
    && (forall m, n, i :: HasId(devices, m, i) && HasId(devices, n, i) ==> m == n)
  }

  ghost predicate SameIds(before: Devices, after: Devices)
  {
    before.Keys == after.Keys && forall m :: m in before ==> after[m].setId == before[m].setId
  }

  function Freed(s: State, mac: Mac): set<nat>
    requires mac in s.devices
  {
    if s.devices[mac].setId.Some? then s.setIds - {s.devices[mac].setId.value} else s.setIds
  }

  /** No set id changes hands, or the device leaves and gives its own back. */
  ghost predicate IdsLaw(s: State, t: State, mac: Mac)
  {
    mac in s.devices &&
    ( || (SameIds(s.devices, t.devices) && t.setIds == s.setIds)
      || (SameIds(s.devices - {mac}, t.devices) && t.setIds == Freed(s, mac)))
  }

  lemma SameIdsKeep(before: Devices, after: Devices, ids: set<nat>)
    requires SameIds(before, after) && IdsInUse(before, ids)
    ensures IdsInUse(after, ids)
  {
    assert forall m, i :: HasId(after, m, i) <==> HasId(before, m, i);
  }

  lemma LeavingFreesId(s: State, mac: Mac)
    requires mac in s.devices && IdsInUse(s.devices, s.setIds)
    ensures IdsInUse(s.devices - {mac}, Freed(s, mac))
  {
    var after := s.devices - {mac};
    assert forall m, i :: HasId(after, m, i) <==> HasId(s.devices, m, i) && m != mac;
    forall i | i in Freed(s, mac) ensures exists m :: HasId(after, m, i) {
      var m :| HasId(s.devices, m, i);
      assert HasId(after, m, i);
    }
    forall m, i | HasId(after, m, i) ensures i in Freed(s, mac) {
      assert HasId(s.devices, m, i);
      assert s.devices[mac].setId.Some? ==> HasId(s.devices, mac, s.devices[mac].setId.value);
    }
  }

  lemma IdsLawKeeps(s: State, t: State, mac: Mac)
    requires IdsLaw(s, t, mac) && IdsInUse(s.devices, s.setIds)
    ensures IdsInUse(t.devices, t.setIds)
  {
    if SameIds(s.devices, t.devices) && t.setIds == s.setIds {
      SameIdsKeep(s.devices, t.devices, s.setIds);
    } else {
      LeavingFreesId(s, mac);
      SameIdsKeep(s.devices - {mac}, t.devices, t.setIds);
    }
  }

  lemma CompleteIds(c: Config, s: State, mac: Mac, failed: bool)
    requires mac in s.devices
    ensures var t := Complete(c, s, mac, failed);
            t.devices == s.devices - {mac} && t.setIds == Freed(s, mac)
  {
  }

  lemma IdsLawFrom(s: State, t: State, r: State, mac: Mac)
    requires IdsLaw(t, r, mac) && mac in s.devices && SameIds(s.devices, t.devices) && t.setIds == s.setIds
    requires s.devices - {mac} == t.devices - {mac}
    ensures IdsLaw(s, r, mac)
  {
  }

  lemma RunningIds(s: State, mac: Mac, id: nat)
    requires mac in s.devices && id in s.gateways
    ensures IdsLaw(s, Running(s, mac, id), mac) && IdsLaw(s, WithHost(s, mac), mac)
    ensures Running(s, mac, id).devices - {mac} == s.devices - {mac} && WithHost(s, mac).devices - {mac} == s.devices - {mac}
    ensures Freed(Running(s, mac, id), mac) == Freed(s, mac) && Freed(WithHost(s, mac), mac) == Freed(s, mac)
  {
  }

  lemma EndIds(s: State, t: State, mac: Mac)
    requires mac in s.devices && t.devices == s.devices - {mac} && t.setIds == Freed(s, mac)
    ensures IdsLaw(s, t, mac)
  {
  }

  lemma LaunchIds(c: Config, s: State, mac: Mac, id: nat, failure: Failure)
    requires mac in s.devices && id in s.gateways
    ensures IdsLaw(s, Launch(c, s, mac, id, failure), mac)
  {
    RunningIds(s, mac, id);
    if failure == HostBuild {
      EndIds(s, Launch(c, s, mac, id, failure), mac);
    } else if failure == HostInit || Conflicts(s, mac, id) {
      CompleteIds(c, WithHost(s, mac), mac, true);
      EndIds(s, Launch(c, s, mac, id, failure), mac);
    } else if failure == Traffic {
      CompleteIds(c, Running(s, mac, id), mac, true);
      EndIds(s, Launch(c, s, mac, id, failure), mac);
    }
  }

  lemma JoinIds(c: Config, s: State, mac: Mac, id: nat, failure: Failure)
    requires mac in s.devices
    ensures IdsLaw(s, Join(c, s, mac, id, failure), mac)
  {
    if Takes(s, id, mac) {
      var u := Attach(s, mac, id);
      LaunchIds(c, u, mac, id, failure);
      assert u.devices - {mac} == s.devices - {mac};
      IdsLawFrom(s, u, Launch(c, u, mac, id, failure), mac);
    }
  }

  lemma ActivateIds(c: Config, s: State, mac: Mac, env: Env)
    requires Safe(c, s) && mac in s.devices && !s.devices[mac].host
    ensures IdsLaw(s, Activate(c, s, mac, env), mac)
  {
    var t := Grouped(s, mac, env.group);
    RelabelKeepsSafe(c, s, mac, t.devices[mac]);
    ActivateFollowsPlan(c, s, mac, env);
    assert t.devices - {mac} == s.devices - {mac};
    match Plan(s, mac, env)
    case Ignored =>
    case Failed =>
    case OnNew(n) =>
      JoinIds(c, NewGateway(t, env.group, n), mac, t.nextGateway, env.failure);
      IdsLawFrom(s, NewGateway(t, env.group, n), Join(c, NewGateway(t, env.group, n), mac, t.nextGateway, env.failure), mac);
    case OnExisting(id) =>
      JoinIds(c, t, mac, id, env.failure);
      IdsLawFrom(s, t, Join(c, t, mac, id, env.failure), mac);
  }

  lemma CreateKeepsIds(s: State, mac: Mac, port: Option<Port>)
    requires IdsInUse(s.devices, s.setIds)
    ensures IdsInUse(Create(s, mac, port).devices, Create(s, mac, port).setIds)
  {
    if mac !in s.devices {
      var (t, id) := (Create(s, mac, port), WantedId(s, port));
      assert forall m, i :: m != mac ==> (HasId(t.devices, m, i) <==> HasId(s.devices, m, i));
      assert forall i :: HasId(t.devices, mac, i) <==> i == id && id !in s.setIds;
      forall i | i in t.setIds ensures exists m :: HasId(t.devices, m, i) {
        if i in s.setIds {
          var m :| HasId(s.devices, m, i);
          assert HasId(t.devices, m, i);
        } else {
          assert HasId(t.devices, mac, i);
        }
      }
    }
  }

  lemma LearnKeepsIds(s: State, mac: Mac, waits: bool)
    requires IdsInUse(s.devices, s.setIds)
    ensures IdsInUse(LearnDevice(s, mac, waits).devices, LearnDevice(s, mac, waits).setIds)
  {
    CreateKeepsIds(s, mac, None);
    var t := Create(s, mac, None);
    SameIdsKeep(t.devices, t.devices[mac := Learned(t.devices[mac], waits)], t.setIds);
  }

  lemma ActivationKeepsIds(c: Config, s: State, e: Event, m: Mac)
    requires Safe(c, s) && IdsInUse(s.devices, s.setIds) && Activates(c, s, e, m)
    ensures IdsInUse(Step(c, s, e).devices, Step(c, s, e).setIds)
  {
    if e.TriggerDevice? {
      var t := Taken(s, m);
      RelabelKeepsSafe(c, s, m, t.devices[m]);
      SameIdsKeep(s.devices, t.devices, s.setIds);
      ActivateIds(c, t, m, e.env);
      IdsLawKeeps(t, Activate(c, t, m, e.env), m);
    } else {
      var t := s.(queue := s.queue[1..]);
      DequeueKeeps(s.devices, s.queue);
      ActivateIds(c, t, m, e.env);
      IdsLawKeeps(t, Activate(c, t, m, e.env), m);
    }
  }

  lemma StepKeepsIds(c: Config, s: State, e: Event)
    requires Safe(c, s) && IdsInUse(s.devices, s.setIds)
    ensures IdsInUse(Step(c, s, e).devices, Step(c, s, e).setIds)
  {
    if m :| Activates(c, s, e, m) {
      ActivationKeepsIds(c, s, e, m);
    } else {
      match e
      case Learn(mac, port) => CreateKeepsIds(s, mac, Some(port));
      case DeviceLearn(mac) => LearnKeepsIds(s, mac, c.server);
      case StartSession(mac) => LearnKeepsIds(s, mac, false);
      case TriggerDevice(mac, remote, env) =>
        IdleTrigger(c, s, e);
        if mac in s.devices {
          SameIdsKeep(s.devices, Taken(s, mac).devices, s.setIds);
        }
      case ConsiderQueue(env) => assert s.queue != [] ==> !Activates(c, s, e, s.queue[0]);
      case Finish(mac, failed) =>
        if mac in s.devices && s.devices[mac].host {
          CompleteIds(c, s, mac, failed);
          LeavingFreesId(s, mac);
        }
      case _ =>
    }
  }

  /** Over every run exactly the set ids of registered devices are in use, each by one device. */
  lemma {:induction false} RunKeepsIds(c: Config, events: seq<Event>)
    ensures IdsInUse(Run(c, events).devices, Run(c, events).setIds)
  {
    if events != [] {
      var (init, e) := (events[..|events| - 1], events[|events| - 1]);
      RunKeepsIds(c, init);
      StepKeepsIds(c, Run(c, init), e);
    }
  }

  // ---- what is learned --------------------------------------------------------------------------

  /** The lowest set id from 1 that no device has. */
  ghost predicate IsLowestFree(ids: set<nat>, i: nat)
  {
    i >= 1 && i !in ids && forall k :: 1 <= k < i ==> k in ids
  }

  /** An unknown device learned on a port: no DHCP of its own, and the port's number as its set id if it is free. */
  lemma LearnedOnPort(c: Config, s: State, mac: Mac, port: Port)
    requires Waiting(s.devices, s.queue)
    ensures var t := Step(c, s, Learn(mac, port));
            if c.vlanMode || mac in s.devices then t == s
            else t.devices == s.devices[mac := Device(Some(port), false, if port in s.setIds then None else Some(port), None, None, false, false)]
                 && t == s.(devices := t.devices, setIds := s.setIds + {port})
  {
    assert port in s.setIds ==> s.setIds + {port} == s.setIds;
  }

  /** A device learned without a port: DHCP of its own, the lowest free set id if it is new, and waiting if told so. */
  lemma LearnedWithoutPort(s: State, mac: Mac, waits: bool) returns (id: nat)
    ensures IsLowestFree(s.setIds, id)
    ensures var t := LearnDevice(s, mac, waits);
            if mac in s.devices then
              && t == s.(devices := s.devices[mac := t.devices[mac]])
              && t.devices[mac] == s.devices[mac].(external := true, waitRemote := s.devices[mac].waitRemote || waits,
                                                   port := if waits && !s.devices[mac].waitRemote then None else s.devices[mac].port)
            else t == s.(devices := s.devices[mac := Device(None, true, Some(id), None, None, false, waits)], setIds := s.setIds + {id})
  {
    id := LeastFree(s.setIds, 1);
    var t := LearnDevice(s, mac, waits);
    if mac in s.devices {
      assert t.devices == s.devices[mac := t.devices[mac]];
    } else {
      assert t.devices == s.devices[mac := Device(None, true, Some(id), None, None, false, waits)];
    }
  }

  /** Which of these a device event is: on VLANs it waits for a server if there is one, in a session it does not. */
  lemma DeviceEvents(c: Config, s: State, mac: Mac, active: bool)
    requires Waiting(s.devices, s.queue)
    ensures Step(c, s, DeviceLearn(mac)) == if c.vlanMode then LearnDevice(s, mac, c.server) else s
    ensures Step(c, s, StartSession(mac)) == if c.server then LearnDevice(s, mac, false) else s
    ensures Step(c, s, SystemPort(active)) == s.(systemActive := active)
  {
  }

  // ---- what a gateway keeps -----------------------------------------------------------------------

  /** A gateway keeps its name and set, and is activated by nothing but its own activation, for good. */
  ghost predicate GatewaysKeep(s: State, t: State)
  {
    && (forall id :: id in s.gateways && id in t.gateways ==>
          && t.gateways[id].name == s.gateways[id].name && t.gateways[id].portSet == s.gateways[id].portSet
          && t.gateways[id].activated == s.gateways[id].activated)
    && (forall id :: id in t.gateways && id !in s.gateways ==> id >= s.nextGateway)
    && t.nextGateway >= s.nextGateway
  }

  lemma LaunchedKeepsGateways(s: State, t: State, mac: Mac)
    requires mac in s.devices && Launched(s, t, mac)
    ensures GatewaysKeep(s, t)
  {
  }

  lemma JoinKeepsGateways(c: Config, s: State, mac: Mac, id: nat, failure: Failure)
    requires mac in s.devices && mac !in s.queue
    ensures GatewaysKeep(s, Join(c, s, mac, id, failure))
  {
    if Takes(s, id, mac) {
      var u := Attach(s, mac, id);
      LaunchEffect(c, u, mac, id, failure);
      LaunchedKeepsGateways(u, Launch(c, u, mac, id, failure), mac);
    }
  }

  lemma GatewaysKeepOn(s: State, t: State, r: State)
    requires GatewaysKeep(s, t) && GatewaysKeep(t, r) && Below(s.gateways, s.nextGateway)
    requires s.gateways.Keys <= t.gateways.Keys
    ensures GatewaysKeep(s, r)
  {
  }

  lemma ActivateKeepsGateways(c: Config, s: State, mac: Mac, env: Env)
    requires Safe(c, s) && mac in s.devices && !s.devices[mac].host && mac !in s.queue
    ensures GatewaysKeep(s, Activate(c, s, mac, env))
  {
    var t := Grouped(s, mac, env.group);
    RelabelKeepsSafe(c, s, mac, t.devices[mac]);
    ActivateFollowsPlan(c, s, mac, env);
    match Plan(s, mac, env)
    case Ignored =>
    case Failed =>
    case OnNew(n) =>
      var u := NewGateway(t, env.group, n);
      JoinKeepsGateways(c, u, mac, t.nextGateway, env.failure);
      GatewaysKeepOn(s, u, Join(c, u, mac, t.nextGateway, env.failure));
    case OnExisting(id) => JoinKeepsGateways(c, t, mac, id, env.failure);
  }

  lemma ActivationKeepsGateways(c: Config, s: State, e: Event, m: Mac)
    requires Safe(c, s) && Activates(c, s, e, m)
    ensures GatewaysKeep(s, Step(c, s, e))
  {
    if e.TriggerDevice? {
      var t := Taken(s, m);
      RelabelKeepsSafe(c, s, m, t.devices[m]);
      ActivateKeepsGateways(c, t, m, e.env);
    } else {
      DequeueKeeps(s.devices, s.queue);
      ActivateKeepsGateways(c, s.(queue := s.queue[1..]), m, e.env);
    }
  }

  /** In every step but its own activation a gateway keeps what it is; that step changes nothing else. */
  lemma StepKeepsGateways(c: Config, s: State, e: Event)
    requires Safe(c, s)
    ensures e.ActivateGateway? ==>
              Step(c, s, e) == if e.id in s.gateways then s.(gateways := s.gateways[e.id := s.gateways[e.id].(activated := true)]) else s
    ensures !e.ActivateGateway? ==> GatewaysKeep(s, Step(c, s, e))
  {
    if m :| Activates(c, s, e, m) {
      ActivationKeepsGateways(c, s, e, m);
    } else {
      match e
      case TriggerDevice(mac, remote, env) => IdleTrigger(c, s, e);
      case ConsiderQueue(env) => assert s.queue != [] ==> !Activates(c, s, e, s.queue[0]);
      case Finish(mac, failed) =>
        if mac in s.devices && s.devices[mac].host {
          HostedIsNotQueued(s.devices, s.queue, mac);
          CompleteIsGone(c, s, mac, failed);
          LaunchedKeepsGateways(s, Complete(c, s, mac, failed), mac);
        }
      case _ =>
    }
  }

  // ---- what a start does --------------------------------------------------------------------------

  /** The gateway set for a device: that of its own port number if it is free, else the one popped. */
  function OwnSet(s: State, d: Device, pick: nat): nat
  {
    if d.port.Some? && d.port.value in s.gatewaySets then d.port.value else pick
  }

  /** The device has a host; it is on the gateway, in its group, and its port's traffic is directed there. */
  ghost predicate IsStarted(s: State, t: State, m: Mac, group: Group, id: nat)
  {
    && m in s.devices && m in t.devices && id in t.gateways
    && t.devices == s.devices[m := s.devices[m].(group := Some(group), gateway := Some(id), host := true)]
    && t.directed == (if s.devices[m].port.None? then s.directed
                      else s.directed[s.devices[m].port.value := Entry(m, Some(group), t.gateways[id].portSet)])
  }

  lemma JoinRuns(c: Config, s: State, mac: Mac, id: nat, failure: Failure)
    requires mac in s.devices && Takes(s, id, mac) && failure in {NoFailure, GatewayInit}
    requires PortIsFor(s, s.devices[mac].port, EntryFor(s, mac, id))
    ensures Join(c, s, mac, id, failure) == Running(Attach(s, mac, id), mac, id)
  {
    assert !Conflicts(Attach(s, mac, id), mac, id);
  }

  lemma RunningIsStarted(s: State, t: State, mac: Mac, id: nat, group: Group)
    requires mac in s.devices && t.devices == s.devices[mac := s.devices[mac].(group := Some(group))]
    requires t.directed == s.directed && id in t.gateways
    ensures var r := Running(Attach(t, mac, id), mac, id);
            && IsStarted(s, r, mac, group, id) && r.gatewaySets == t.gatewaySets
            && r.gateways == t.gateways[id := t.gateways[id].(targets := t.gateways[id].targets + {mac})]
  {
    var r := Running(Attach(t, mac, id), mac, id);
    assert r.devices == s.devices[mac := s.devices[mac].(group := Some(group), gateway := Some(id), host := true)];
  }

  /** A start on a gateway: the one of the group, or a new one with its own set. */
  ghost predicate StartsOn(s: State, t: State, m: Mac, env: Env, id: nat)
  {
    && IsStarted(s, t, m, env.group, id)
    && (if Existing(s, env.group) == {} then
          && id == s.nextGateway && t.gatewaySets == s.gatewaySets - {OwnSet(s, s.devices[m], env.pick)}
          && t.gateways == s.gateways[id := Gateway(env.group, OwnSet(s, s.devices[m], env.pick), {m}, false)]
        else
          && Existing(s, env.group) == {id} && id in s.gateways && t.gatewaySets == s.gatewaySets
          && t.gateways == s.gateways[id := s.gateways[id].(targets := s.gateways[id].targets + {m})])
  }

  lemma NewStart(c: Config, s: State, mac: Mac, env: Env, portSet: nat)
    requires mac in s.devices && env.failure == NoFailure && portSet == OwnSet(s, s.devices[mac], env.pick)
    requires Existing(s, env.group) == {} && PortIsFor(s, s.devices[mac].port, Entry(mac, Some(env.group), portSet))
    ensures var u := NewGateway(Grouped(s, mac, env.group), env.group, portSet);
            StartsOn(s, Join(c, u, mac, s.nextGateway, env.failure), mac, env, s.nextGateway)
  {
    var u := NewGateway(Grouped(s, mac, env.group), env.group, portSet);
    JoinRuns(c, u, mac, s.nextGateway, env.failure);
    RunningIsStarted(s, u, mac, s.nextGateway, env.group);
    assert {} + {mac} == {mac};
  }

  lemma SharedStart(c: Config, s: State, mac: Mac, env: Env, id: nat)
    requires mac in s.devices && env.failure in {NoFailure, GatewayInit} && Existing(s, env.group) == {id}
    requires Takes(s, id, mac) && PortIsFor(s, s.devices[mac].port, Entry(mac, Some(env.group), s.gateways[id].portSet))
    ensures StartsOn(s, Join(c, Grouped(s, mac, env.group), mac, id, env.failure), mac, env, id)
  {
    var t := Grouped(s, mac, env.group);
    JoinRuns(c, t, mac, id, env.failure);
    RunningIsStarted(s, t, mac, id, env.group);
  }

  /**
   * An activation that starts: the device has its host, is on the gateway of its group or on a new one
   * with the set of its own port number or the one popped, and its port's traffic is directed there.
   */
  lemma ActivationIs(c: Config, s: State, mac: Mac, env: Env) returns (id: nat)
    requires Safe(c, s) && mac in s.devices && !s.devices[mac].host && mac !in s.queue && Starts(s, mac, env)
    ensures StartsOn(s, Activate(c, s, mac, env), mac, env, id)
  {
    var t := Grouped(s, mac, env.group);
    RelabelKeepsSafe(c, s, mac, t.devices[mac]);
    RelabelKeepsExisting(s, mac, t.devices[mac], env.group);
    ActivateFollowsPlan(c, s, mac, env);
    PlanStarts(s, mac, env);
    var plan := Plan(s, mac, env);
    if plan.OnNew? {
      id := s.nextGateway;
      NewStart(c, s, mac, env, plan.portSet);
    } else {
      id := plan.id;
      SharedStart(c, s, mac, env, id);
    }
  }
}
