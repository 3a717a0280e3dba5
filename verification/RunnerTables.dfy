/**
 * The tables of the scheduler that can get out of order: a gateway's targets, set ids and directed
 * ports. Two events do that: learning a device whose set id is taken, and the host of a port device
 * that fails to initialise; every other step keeps all of them.
 */
module RunnerTables {
  import opened Octets
  import opened Runner
  import opened RunnerRuns

  /** One live gateway per group. */
  ghost predicate OnePerGroup(gws: Pool)
  {
    forall i, j :: i in gws && j in gws && i != j ==> gws[i].name != gws[j].name
  }

  ghost function TargetsOf(devices: Devices, id: nat): set<Mac>
  {
    set m | m in devices && devices[m].gateway == Some(id)
  }

  /** A gateway's targets are the registered devices that point at it, all of its group. */
  ghost predicate Membership(devices: Devices, gws: Pool)
  {
    && (forall id :: id in gws ==> gws[id].targets == TargetsOf(devices, id))
    && (forall m :: m in devices && devices[m].gateway.Some? ==>
          && devices[m].gateway.value in gws
          && devices[m].group == Some(gws[devices[m].gateway.value].name))
  }

  ghost predicate SetIds(devices: Devices, ids: set<nat>)
  {
    && (forall m :: m in devices ==> devices[m].setId.Some? && devices[m].setId.value in ids)
    && (forall m :: m in devices && devices[m].port.Some? ==> devices[m].setId == Some(devices[m].port.value))
    && (forall m, n :: m in devices && n in devices && m != n ==> devices[m].setId != devices[n].setId)
  }

  /** Traffic is directed for exactly the ports of devices with a host. */
  ghost predicate Directed(devices: Devices, ports: set<Port>)
  {
    && (forall m :: m in devices && devices[m].host && devices[m].port.Some? ==> devices[m].port.value in ports)
    && (forall p :: p in ports ==> exists m :: m in devices && devices[m].host && devices[m].port == Some(p))
  }

  ghost predicate InOrder(s: State)
  {
    && OnePerGroup(s.gateways) && Membership(s.devices, s.gateways)
    && SetIds(s.devices, s.setIds) && Directed(s.devices, s.directed.Keys)
  }

  // ---- a device leaves --------------------------------------------------------------------------

  lemma TargetsWithout(devices: Devices, mac: Mac, i: nat)
    requires mac in devices
    ensures TargetsOf(devices - {mac}, i)
            == if devices[mac].gateway == Some(i) then TargetsOf(devices, i) - {mac} else TargetsOf(devices, i)
  {
  }

  lemma LeaveKeepsMembership(devices: Devices, gws: Pool, mac: Mac, id: nat)
    requires Membership(devices, gws) && mac in devices && devices[mac].gateway == Some(id)
    ensures Membership(devices - {mac}, Left(gws, id, gws[id].targets - {mac}))
  {
    var rest := gws[id].targets - {mac};
    var after := Left(gws, id, rest);
    forall i | i in after ensures after[i].targets == TargetsOf(devices - {mac}, i) {
      TargetsWithout(devices, mac, i);
    }
    forall m | m in devices && m != mac && devices[m].gateway.Some?
      ensures devices[m].gateway.value in after && devices[m].group == Some(after[devices[m].gateway.value].name)
    {
      if devices[m].gateway.value == id {
        assert m in TargetsOf(devices, id);
        assert m in rest;
      }
    }
  }

  lemma LeaveKeepsGroups(gws: Pool, id: nat, rest: set<Mac>)
    requires OnePerGroup(gws) && id in gws
    ensures OnePerGroup(Left(gws, id, rest))
  {
  }

  lemma LeaveKeepsDirected(devices: Devices, ids: set<nat>, ports: set<Port>, mac: Mac)
    requires SetIds(devices, ids) && Directed(devices, ports) && mac in devices
    ensures Directed(devices - {mac}, ports - if devices[mac].port.Some? then {devices[mac].port.value} else {})
  {
    var after := devices - {mac};
    forall p | p in ports && devices[mac].port != Some(p)
      ensures exists m :: m in after && after[m].host && after[m].port == Some(p)
    {
      var m :| m in devices && devices[m].host && devices[m].port == Some(p);
      assert m in after;
    }
  }

  lemma LeaveKeepsSetIds(devices: Devices, ids: set<nat>, mac: Mac)
    requires SetIds(devices, ids) && mac in devices
    ensures SetIds(devices - {mac}, ids - {devices[mac].setId.value})
  {
  }

  /** Taking an attached device off its gateway. */
  lemma DetachTables(s: State, mac: Mac, id: nat)
    requires Membership(s.devices, s.gateways) && OnePerGroup(s.gateways)
    requires mac in s.devices && s.devices[mac].gateway == Some(id)
    ensures Membership(s.devices - {mac}, Detach(s, mac, id).gateways) && OnePerGroup(Detach(s, mac, id).gateways)
  {
    assert mac in TargetsOf(s.devices, id);
    LeaveKeepsMembership(s.devices, s.gateways, mac, id);
    LeaveKeepsGroups(s.gateways, id, s.gateways[id].targets - {mac});
  }

  lemma CancelTables(s: State, mac: Mac)
    requires mac in s.devices && mac !in s.queue
    requires var d := s.devices[mac];
             d.host && d.gateway.Some? && (d.port.Some? ==> d.port.value in s.directed)
    ensures var (d, t) := (s.devices[mac], Cancel(s, mac));
            && t.gateways == Detach(s, mac, d.gateway.value).gateways
            && t.devices == s.devices && t.setIds == s.setIds
            && t.directed.Keys == s.directed.Keys - if d.port.Some? then {d.port.value} else {}
  {
    var d := s.devices[mac];
    var t := if d.port.Some? then s.(directed := s.directed - {d.port.value}) else s;
    DetachFromSamePool(s, t, mac, d.gateway.value);
    assert s.(queue := Remove(s.queue, mac)) == s;
  }

  /** A device ends without a trace: its gateway, its set id and its port are given back. */
  lemma CompleteKeepsOrder(c: Config, s: State, mac: Mac, failed: bool)
    requires InOrder(s) && mac in s.devices && mac !in s.queue && s.devices[mac].host && s.devices[mac].gateway.Some?
    ensures InOrder(Complete(c, s, mac, failed))
  {
    CancelTables(s, mac);
    DetachTables(s, mac, s.devices[mac].gateway.value);
    LeaveKeepsSetIds(s.devices, s.setIds, mac);
    LeaveKeepsDirected(s.devices, s.setIds, s.directed.Keys, mac);
  }

  // ---- a device changes --------------------------------------------------------------------------

  /** Two registries that agree on all the fields a table depends on. */
  ghost predicate Agree(before: Devices, after: Devices)
  {
    && before.Keys == after.Keys
    && (forall m :: m in before ==> before[m].setId == after[m].setId && before[m].port == after[m].port)
    && (forall m :: m in before ==> before[m].gateway == after[m].gateway)
    && (forall m :: m in before && before[m].gateway.Some? ==> before[m].group == after[m].group)
  }

  lemma AgreeMembership(before: Devices, after: Devices, gws: Pool)
    requires Agree(before, after) && Membership(before, gws)
    ensures Membership(after, gws)
  {
    forall id | id in gws ensures TargetsOf(after, id) == TargetsOf(before, id) {
    }
  }

  lemma AgreeSetIds(before: Devices, after: Devices, ids: set<nat>)
    requires Agree(before, after) && SetIds(before, ids)
    ensures SetIds(after, ids)
  {
  }

  /** Directed traffic depends only on which devices have hosts and ports. */
  lemma SameHosts(before: Devices, after: Devices, ports: set<Port>)
    requires Directed(before, ports) && before.Keys == after.Keys
    requires forall m :: m in before ==> before[m].host == after[m].host && before[m].port == after[m].port
    ensures Directed(after, ports)
  {
    forall p | p in ports ensures exists m :: m in after && after[m].host && after[m].port == Some(p) {
      var m :| m in before && before[m].host && before[m].port == Some(p);
      assert after[m].port == Some(p);
    }
  }

  lemma RelabelKeepsOrder(s: State, mac: Mac, d: Device)
    requires InOrder(s) && mac in s.devices && s.devices[mac].gateway.None?
    requires d == s.devices[mac].(group := d.group, waitRemote := d.waitRemote)
    ensures InOrder(s.(devices := s.devices[mac := d]))
  {
    var devices := s.devices[mac := d];
    RelabelAgrees(s.devices, mac, d);
    AgreeMembership(s.devices, devices, s.gateways);
    AgreeSetIds(s.devices, devices, s.setIds);
    SameHosts(s.devices, devices, s.directed.Keys);
  }

  lemma RelabelAgrees(devices: Devices, mac: Mac, d: Device)
    requires mac in devices && devices[mac].gateway.None?
    requires d == devices[mac].(group := d.group, waitRemote := d.waitRemote)
    ensures Agree(devices, devices[mac := d])
    ensures forall m :: m in devices ==> devices[m].host == devices[mac := d][m].host
  {
  }

  // ---- launch -------------------------------------------------------------------------------------

  ghost predicate ReadyToLaunch(s: State, mac: Mac, id: nat)
  {
    InOrder(s) && mac in s.devices && mac !in s.queue && !s.devices[mac].host && s.devices[mac].gateway == Some(id)
  }

  lemma PortNotDirected(s: State, mac: Mac)
    requires SetIds(s.devices, s.setIds) && Directed(s.devices, s.directed.Keys)
    requires mac in s.devices && !s.devices[mac].host && s.devices[mac].port.Some?
    ensures s.devices[mac].port.value !in s.directed
  {
  }

  lemma RunningDirected(devices: Devices, ports: set<Port>, mac: Mac)
    requires Directed(devices, ports) && mac in devices
    ensures Directed(devices[mac := devices[mac].(host := true)],
                     if devices[mac].port.None? then ports else ports + {devices[mac].port.value})
  {
    var after := devices[mac := devices[mac].(host := true)];
    forall p | p in ports ensures exists m :: m in after && after[m].host && after[m].port == Some(p) {
      var m :| m in devices && devices[m].host && devices[m].port == Some(p);
      assert after[m].port == Some(p);
    }
    assert after[mac].host;
  }

  lemma RunningAgrees(devices: Devices, mac: Mac)
    requires mac in devices
    ensures Agree(devices, devices[mac := devices[mac].(host := true)])
  {
  }

  lemma RunningKeepsOrder(s: State, mac: Mac, id: nat)
    requires ReadyToLaunch(s, mac, id)
    ensures InOrder(Running(s, mac, id))
  {
    var devices := s.devices[mac := s.devices[mac].(host := true)];
    RunningAgrees(s.devices, mac);
    AgreeMembership(s.devices, devices, s.gateways);
    AgreeSetIds(s.devices, devices, s.setIds);
    RunningDirected(s.devices, s.directed.Keys, mac);
  }

  lemma DropKeepsDirected(s: State, mac: Mac)
    requires SetIds(s.devices, s.setIds) && Directed(s.devices, s.directed.Keys) && mac in s.devices && !s.devices[mac].host
    ensures Directed(s.devices - {mac}, s.directed.Keys)
  {
    LeaveKeepsDirected(s.devices, s.setIds, s.directed.Keys, mac);
    if s.devices[mac].port.Some? {
      PortNotDirected(s, mac);
      assert s.directed.Keys - {s.devices[mac].port.value} == s.directed.Keys;
    } else {
      assert s.directed.Keys - {} == s.directed.Keys;
    }
  }

  /** A host that cannot be built: the device is dropped and its gateway given back. */
  lemma BuildFailureKeepsOrder(c: Config, s: State, mac: Mac, id: nat)
    requires ReadyToLaunch(s, mac, id)
    ensures InOrder(Launch(c, s, mac, id, HostBuild))
  {
    BuildFailureTables(c, s, mac, id);
    DetachTables(s, mac, id);
    LeaveKeepsSetIds(s.devices, s.setIds, mac);
    DropKeepsDirected(s, mac);
  }

  lemma BuildFailureTables(c: Config, s: State, mac: Mac, id: nat)
    requires mac in s.devices && s.devices[mac].setId.Some? && id in s.gateways
    ensures var t := Launch(c, s, mac, id, HostBuild);
            && t.gateways == Detach(s, mac, id).gateways && t.devices == s.devices - {mac}
            && t.setIds == s.setIds - {s.devices[mac].setId.value} && t.directed == s.directed
  {
    DetachFromSamePool(s, Finalize(c, s, mac, true), mac, id);
  }

  /** A launch after which the device runs, or has ended with its traffic undirected. */
  lemma LaunchRuns(c: Config, s: State, mac: Mac, id: nat, failure: Failure)
    requires ReadyToLaunch(s, mac, id) && failure != HostBuild && (failure == HostInit ==> s.devices[mac].port.None?)
    requires s.devices[mac].port.Some? ==> s.devices[mac].port.value !in s.directed
    ensures InOrder(Launch(c, s, mac, id, failure))
  {
    RunningKeepsOrder(s, mac, id);
    if failure == HostInit || failure == Traffic {
      CompleteKeepsOrder(c, Running(s, mac, id), mac, true);
    }
  }

  /** Cancelling before traffic was directed skips the gateway, which then keeps a stale target. */
  lemma LeakBreaksMembership(c: Config, s: State, mac: Mac, id: nat)
    requires mac in s.devices && s.devices[mac].gateway == Some(id) && id in s.gateways && mac in s.gateways[id].targets
    requires s.devices[mac].host && s.devices[mac].port.Some? && s.devices[mac].port.value !in s.directed
    ensures !InOrder(Complete(c, s, mac, true))
    ensures var t := Complete(c, s, mac, true);
            t.gateways == s.gateways && t.gatewaySets == s.gatewaySets && mac !in t.devices
  {
    var t := Complete(c, s, mac, true);
    assert mac !in TargetsOf(t.devices, id);
    assert mac in t.gateways[id].targets;
  }

  lemma LaunchLeaks(c: Config, s: State, mac: Mac, id: nat)
    requires ReadyToLaunch(s, mac, id) && s.devices[mac].port.Some?
    ensures var t := Launch(c, s, mac, id, HostInit);
            && !InOrder(t) && t.gateways == s.gateways && mac !in t.devices
            && id in s.gateways && mac in s.gateways[id].targets
  {
    PortNotDirected(s, mac);
    assert mac in TargetsOf(s.devices, id);
    LeakBreaksMembership(c, WithHost(s, mac), mac, id);
  }

  /** A launch leaves the tables in order unless a port device's host fails to initialise. */
  lemma LaunchKeepsOrderIff(c: Config, s: State, mac: Mac, id: nat, failure: Failure)
    requires ReadyToLaunch(s, mac, id)
    ensures InOrder(Launch(c, s, mac, id, failure)) <==> !(failure == HostInit && s.devices[mac].port.Some?)
  {
    if s.devices[mac].port.Some? {
      PortNotDirected(s, mac);
    }
    if failure == HostBuild {
      BuildFailureKeepsOrder(c, s, mac, id);
    } else if failure == HostInit && s.devices[mac].port.Some? {
      LaunchLeaks(c, s, mac, id);
    } else {
      LaunchRuns(c, s, mac, id, failure);
    }
  }

  // ---- activation ---------------------------------------------------------------------------------

  lemma JoinKeepsMembership(devices: Devices, gws: Pool, mac: Mac, id: nat)
    requires Membership(devices, gws) && mac in devices && id in gws
    requires devices[mac].gateway.None? && devices[mac].group == Some(gws[id].name)
    ensures Membership(devices[mac := devices[mac].(gateway := Some(id))],
                       gws[id := gws[id].(targets := gws[id].targets + {mac})])
  {
    var d := devices[mac := devices[mac].(gateway := Some(id))];
    forall i | i in gws ensures TargetsOf(d, i) == if i == id then TargetsOf(devices, i) + {mac} else TargetsOf(devices, i) {
    }
  }

  lemma AttachKeepsRest(devices: Devices, ids: set<nat>, ports: set<Port>, mac: Mac, id: nat)
    requires SetIds(devices, ids) && Directed(devices, ports) && mac in devices
    ensures var after := devices[mac := devices[mac].(gateway := Some(id))];
            SetIds(after, ids) && Directed(after, ports)
  {
    SameHosts(devices, devices[mac := devices[mac].(gateway := Some(id))], ports);
  }

  lemma AttachGivesReady(s: State, mac: Mac, id: nat)
    requires InOrder(s) && mac in s.devices && mac !in s.queue && !s.devices[mac].host && id in s.gateways
    requires s.devices[mac].gateway.None? && s.devices[mac].group == Some(s.gateways[id].name)
    ensures ReadyToLaunch(Attach(s, mac, id), mac, id)
  {
    JoinKeepsMembership(s.devices, s.gateways, mac, id);
    AttachKeepsRest(s.devices, s.setIds, s.directed.Keys, mac, id);
  }

  ghost predicate Named(s: State, id: nat, group: Group)
  {
    id in s.gateways && s.gateways[id].name == group
  }

  lemma NewGatewayKeepsOrder(s: State, group: Group, portSet: nat)
    requires InOrder(s) && Below(s.gateways, s.nextGateway) && forall id :: !Named(s, id, group)
    ensures InOrder(NewGateway(s, group, portSet))
  {
    assert forall id :: id in s.gateways && s.gateways[id].name == group ==> Named(s, id, group);
    assert TargetsOf(s.devices, s.nextGateway) == {};
  }

  /** With the tables in order the gateways found for a group are those that bear its name. */
  lemma ExistingAreNamed(s: State, group: Group)
    requires InOrder(s) && NoneIdle(s.gateways)
    ensures forall id :: id in Existing(s, group) <==> Named(s, id, group)
  {
    forall id | Named(s, id, group) ensures id in Existing(s, group) {
      var m :| m in s.gateways[id].targets;
      assert m in TargetsOf(s.devices, id);
    }
  }

  /**
   * The activation of a port device gets a gateway, its own group's or a fresh one, and then its
   * host fails to initialise.
   */
  ghost predicate Leaks(s: State, mac: Mac, env: Env)
    requires mac in s.devices
  {
    var d := s.devices[mac];
    && env.failure == HostInit && d.port.Some? && env.portActive
    && (s.gatewaySets != {} || exists id :: Named(s, id, env.group))
    && (forall id :: Named(s, id, env.group) && s.gateways[id].activated ==> d.external)
  }

  lemma JoinNewKeepsOrderIff(c: Config, t: State, mac: Mac, group: Group, portSet: nat, failure: Failure)
    requires InOrder(t) && Below(t.gateways, t.nextGateway) && mac in t.devices && mac !in t.queue
    requires !t.devices[mac].host && t.devices[mac].gateway.None? && t.devices[mac].group == Some(group)
    requires forall id :: !Named(t, id, group)
    ensures InOrder(Join(c, NewGateway(t, group, portSet), mac, t.nextGateway, failure))
            <==> !(failure == HostInit && t.devices[mac].port.Some?)
  {
    var (u, id) := (NewGateway(t, group, portSet), t.nextGateway);
    NewGatewayKeepsOrder(t, group, portSet);
    AttachGivesReady(u, mac, id);
    LaunchKeepsOrderIff(c, Attach(u, mac, id), mac, id, failure);
  }

  lemma JoinSharedKeepsOrderIff(c: Config, t: State, mac: Mac, id: nat, failure: Failure)
    requires InOrder(t) && mac in t.devices && mac !in t.queue
    requires !t.devices[mac].host && t.devices[mac].gateway.None? && id in t.gateways
    requires t.devices[mac].group == Some(t.gateways[id].name)
    ensures InOrder(Join(c, t, mac, id, failure))
            <==> !(failure == HostInit && t.devices[mac].port.Some?
                   && (t.gateways[id].activated ==> t.devices[mac].external))
  {
    assert mac !in TargetsOf(t.devices, id);
    if t.gateways[id].activated ==> t.devices[mac].external {
      AttachGivesReady(t, mac, id);
      LaunchKeepsOrderIff(c, Attach(t, mac, id), mac, id, failure);
    }
  }

  /** Activation keeps every table in order exactly when it does not leak its gateway. */
  lemma ActivateKeepsOrderIff(c: Config, s: State, mac: Mac, env: Env)
    requires Safe(c, s) && InOrder(s) && mac in s.devices && !s.devices[mac].host && mac !in s.queue
    ensures InOrder(Activate(c, s, mac, env)) <==> !Leaks(s, mac, env)
  {
    var t := Grouped(s, mac, env.group);
    RelabelKeepsSafe(c, s, mac, t.devices[mac]);
    RelabelKeepsOrder(s, mac, t.devices[mac]);
    ExistingAreNamed(t, env.group);
    GroupedKeepsOrderIff(c, s, mac, env);
  }

  lemma GroupedKeepsOrderIff(c: Config, s: State, mac: Mac, env: Env)
    requires mac in s.devices && !s.devices[mac].host && s.devices[mac].gateway.None? && mac !in s.queue
    requires Shared(s.devices) && Shared(Grouped(s, mac, env.group).devices) && Below(s.gateways, s.nextGateway)
    requires InOrder(s) && InOrder(Grouped(s, mac, env.group))
    requires forall id :: id in Existing(Grouped(s, mac, env.group), env.group) <==> Named(Grouped(s, mac, env.group), id, env.group)
    ensures InOrder(Activate(c, s, mac, env)) <==> !Leaks(s, mac, env)
  {
    ActivateFollowsPlan(c, s, mac, env);
    PlanLeaks(s, mac, env);
    PlanIsNamed(s, mac, env);
    PlanKeepsOrderIff(c, Grouped(s, mac, env.group), mac, env, Plan(s, mac, env));
  }

  lemma PlanIsNamed(s: State, mac: Mac, env: Env)
    requires mac in s.devices && Shared(s.devices)
    requires forall id :: id in Existing(Grouped(s, mac, env.group), env.group) <==> Named(Grouped(s, mac, env.group), id, env.group)
    ensures var (t, plan) := (Grouped(s, mac, env.group), Plan(s, mac, env));
            && (plan.OnExisting? ==> Named(t, plan.id, env.group))
            && (plan.OnNew? ==> forall id :: !Named(t, id, env.group))
  {
  }

  lemma PlanKeepsOrderIff(c: Config, t: State, mac: Mac, env: Env, plan: Outcome)
    requires InOrder(t) && Below(t.gateways, t.nextGateway) && mac in t.devices && mac !in t.queue
    requires !t.devices[mac].host && t.devices[mac].gateway.None? && t.devices[mac].group == Some(env.group)
    requires plan.OnExisting? ==> Named(t, plan.id, env.group)
    requires plan.OnNew? ==> forall id :: !Named(t, id, env.group)
    ensures var leaks := env.failure == HostInit && t.devices[mac].port.Some?;
            match plan
            case Ignored => true
            case Failed => InOrder(t.(runTests := t.runTests && !c.failMode))
            case OnNew(portSet) =>
              InOrder(Join(c, NewGateway(t, env.group, portSet), mac, t.nextGateway, env.failure)) <==> !leaks
            case OnExisting(id) =>
              InOrder(Join(c, t, mac, id, env.failure))
              <==> !(leaks && (t.gateways[id].activated ==> t.devices[mac].external))
  {
    match plan
    case Ignored =>
    case Failed => RunTestsIsNoTable(t, c);
    case OnNew(portSet) => JoinNewKeepsOrderIff(c, t, mac, env.group, portSet, env.failure);
    case OnExisting(id) => JoinSharedKeepsOrderIff(c, t, mac, id, env.failure);
  }

  lemma RunTestsIsNoTable(s: State, c: Config)
    requires InOrder(s)
    ensures InOrder(s.(runTests := s.runTests && !c.failMode))
  {
  }

  /** What a leak comes down to in each way an activation can go. */
  lemma PlanLeaks(s: State, mac: Mac, env: Env)
    requires mac in s.devices && Shared(s.devices)
    requires Shared(Grouped(s, mac, env.group).devices)
    requires forall id :: id in Existing(Grouped(s, mac, env.group), env.group) <==> Named(Grouped(s, mac, env.group), id, env.group)
    ensures var d := s.devices[mac];
            Leaks(s, mac, env)
            <==> env.failure == HostInit && d.port.Some?
                 && match Plan(s, mac, env)
                    case Ignored => false
                    case Failed => false
                    case OnNew(_) => true
                    case OnExisting(id) => id in s.gateways && (s.gateways[id].activated ==> d.external)
  {
    var t := Grouped(s, mac, env.group);
    assert forall id :: Named(s, id, env.group) <==> Named(t, id, env.group);
    GroupHasOneGateway(t, env.group);
    if Plan(s, mac, env).OnExisting? {
      var id := Plan(s, mac, env).id;
      SingleElement(Existing(t, env.group), id);
      assert Named(s, id, env.group);
    }
  }

  // ---- every step -----------------------------------------------------------------------------

  /** The events that leave the tables out of order. */
  ghost predicate Harmful(c: Config, s: State, e: Event)
  {
    match e
    case Learn(mac, port) => !c.vlanMode && mac !in s.devices && port in s.setIds
    case TriggerDevice(mac, remote, env) =>
      mac in s.devices && PickIsFree(s, env) && WillActivate(c, s, mac, remote) && Leaks(s, mac, env)
    case ConsiderQueue(env) =>
      s.queue != [] && s.queue[0] in s.devices && PickIsFree(s, env) && HasCapacity(c, s) && Leaks(s, s.queue[0], env)
    case _ => false
  }

  lemma CreateKeepsOrderIff(s: State, mac: Mac, port: Option<Port>)
    requires InOrder(s)
    ensures InOrder(Create(s, mac, port))
            <==> !(mac !in s.devices && port.Some? && port.value in s.setIds)
  {
    if mac !in s.devices {
      var t := Create(s, mac, port);
      if WantedId(s, port) in s.setIds {
        assert t.devices[mac].setId.None?;
      } else {
        CreateRest(s.devices, s.gateways, s.directed.Keys, mac, t.devices[mac]);
        CreateSetIds(s.devices, s.setIds, mac, t.devices[mac], WantedId(s, port));
      }
    }
  }

  lemma CreateRest(devices: Devices, gws: Pool, ports: set<Port>, mac: Mac, d: Device)
    requires Membership(devices, gws) && Directed(devices, ports) && mac !in devices && d.gateway.None? && !d.host
    ensures var after := devices[mac := d];
            Membership(after, gws) && Directed(after, ports)
  {
    var after := devices[mac := d];
    forall id | id in gws ensures TargetsOf(after, id) == TargetsOf(devices, id) {
    }
    forall p | p in ports ensures exists m :: m in after && after[m].host && after[m].port == Some(p) {
      var m :| m in devices && devices[m].host && devices[m].port == Some(p);
      assert after[m].port == Some(p);
    }
  }

  lemma CreateSetIds(devices: Devices, ids: set<nat>, mac: Mac, d: Device, id: nat)
    requires SetIds(devices, ids) && mac !in devices && id !in ids
    requires d.setId == Some(id) && (d.port.Some? ==> d.port.value == id)
    ensures SetIds(devices[mac := d], ids + {id})
  {
  }

  /** A device that keeps its port, or had none, keeps its place in every table. */
  lemma LearnDeviceKeepsOrder(s: State, mac: Mac, waits: bool)
    requires InOrder(s) && (waits && mac in s.devices ==> s.devices[mac].port.None?)
    ensures InOrder(LearnDevice(s, mac, waits))
  {
    CreateKeepsOrderIff(s, mac, None);
    var t := Create(s, mac, None);
    var devices := t.devices[mac := Learned(t.devices[mac], waits)];
    LearnedAgrees(t.devices, mac, waits);
    AgreeMembership(t.devices, devices, t.gateways);
    AgreeSetIds(t.devices, devices, t.setIds);
    SameHosts(t.devices, devices, t.directed.Keys);
  }

  lemma LearnedAgrees(devices: Devices, mac: Mac, waits: bool)
    requires mac in devices && (waits ==> devices[mac].port.None?)
    ensures var after := devices[mac := Learned(devices[mac], waits)];
            Agree(devices, after) && forall m :: m in devices ==> devices[m].host == after[m].host
  {
  }

  lemma TriggerKeepsOrderIff(c: Config, s: State, mac: Mac, remote: bool, env: Env)
    requires Safe(c, s) && InOrder(s) && mac in s.devices
    ensures InOrder(Trigger(c, s, mac, remote, env)) <==> !(WillActivate(c, s, mac, remote) && Leaks(s, mac, env))
  {
    var t := Taken(s, mac);
    if s.systemActive && !s.devices[mac].host && s.runTests && (s.devices[mac].waitRemote ==> remote) && mac !in s.queue {
      RelabelKeepsSafe(c, s, mac, t.devices[mac]);
      RelabelKeepsOrder(s, mac, t.devices[mac]);
      if HasCapacity(c, t) {
        ActivateKeepsOrderIff(c, t, mac, env);
        SameLeaks(s, t, mac, env);
      }
    }
  }

  lemma SameLeaks(s: State, t: State, mac: Mac, env: Env)
    requires mac in s.devices && mac in t.devices && s.gateways == t.gateways && s.gatewaySets == t.gatewaySets
    requires s.devices[mac].port == t.devices[mac].port && s.devices[mac].external == t.devices[mac].external
    ensures Leaks(s, mac, env) <==> Leaks(t, mac, env)
  {
    assert forall id :: Named(t, id, env.group) <==> Named(s, id, env.group);
  }

  lemma ConsiderKeepsOrderIff(c: Config, s: State, env: Env)
    requires Safe(c, s) && InOrder(s) && s.queue != [] && HasCapacity(c, s)
    ensures s.queue[0] in s.devices
    ensures InOrder(Activate(c, s.(queue := s.queue[1..]), s.queue[0], env)) <==> !Leaks(s, s.queue[0], env)
  {
    var t := s.(queue := s.queue[1..]);
    DequeueKeeps(s.devices, s.queue);
    ActivateKeepsOrderIff(c, t, s.queue[0], env);
    SameLeaks(s, t, s.queue[0], env);
  }

  lemma ActivatedGatewayKeepsOrder(devices: Devices, gws: Pool, id: nat)
    requires Membership(devices, gws) && OnePerGroup(gws) && id in gws
    ensures var after := gws[id := gws[id].(activated := true)];
            Membership(devices, after) && OnePerGroup(after)
  {
  }

  /** From tables in order, every step keeps them so, and no harmful one does. */
  lemma StepKeepsOrderIff(c: Config, s: State, e: Event)
    requires Safe(c, s) && InOrder(s)
    ensures InOrder(Step(c, s, e)) <==> !Harmful(c, s, e)
  {
    match e
    case Learn(mac, port) => CreateKeepsOrderIff(s, mac, Some(port));
    case DeviceLearn(mac) =>
      if c.vlanMode {
        LearnDeviceKeepsOrder(s, mac, c.server);
      }
    case StartSession(mac) => LearnDeviceKeepsOrder(s, mac, false);
    case TriggerDevice(mac, remote, env) =>
      if mac in s.devices && PickIsFree(s, env) {
        TriggerKeepsOrderIff(c, s, mac, remote, env);
      }
    case ConsiderQueue(env) =>
      if PickIsFree(s, env) && s.queue != [] && HasCapacity(c, s) {
        ConsiderKeepsOrderIff(c, s, env);
      }
    case Finish(mac, failed) =>
      if mac in s.devices && s.devices[mac].host {
        HostedIsNotQueued(s.devices, s.queue, mac);
        CompleteKeepsOrder(c, s, mac, failed);
      }
    case ActivateGateway(id) =>
      if id in s.gateways {
        ActivatedGatewayKeepsOrder(s.devices, s.gateways, id);
      }
    case SystemPort(active) =>
  }

  // ---- runs -----------------------------------------------------------------------------------

  /** No event of the run is harmful where it happens. */
  ghost predicate Harmless(c: Config, events: seq<Event>)
  {
    events == [] ||
    var (init, e) := (events[..|events| - 1], events[|events| - 1]);
    Harmless(c, init) && !Harmful(c, Run(c, init), e)
  }

  /** The tables are in order at the start and after every event of the run. */
  ghost predicate AlwaysInOrder(c: Config, events: seq<Event>)
  {
    (events == [] || AlwaysInOrder(c, events[..|events| - 1])) && InOrder(Run(c, events))
  }

  /** The tables are in order all through a run exactly when it has no harmful event. */
  lemma {:induction false} RunsInOrderIff(c: Config, events: seq<Event>)
    ensures AlwaysInOrder(c, events) <==> Harmless(c, events)
  {
    if events != [] {
      var (init, e) := (events[..|events| - 1], events[|events| - 1]);
      RunsInOrderIff(c, init);
      if AlwaysInOrder(c, init) {
        LastIsInOrder(c, init);
        StepKeepsOrderIff(c, Run(c, init), e);
      }
    }
  }

  lemma LastIsInOrder(c: Config, events: seq<Event>)
    requires AlwaysInOrder(c, events)
    ensures InOrder(Run(c, events))
  {
  }

  /** The harmful failure of a host needs no unusual state: it can be the first thing to happen. */
  lemma LeakIsReachable(c: Config, mac: Mac, port: Port, group: Group)
    requires c.maxHosts != Some(0) && !c.vlanMode
    ensures Harmful(c, Run(c, [SystemPort(true), Learn(mac, port)]),
                    TriggerDevice(mac, false, Env(group, true, 1, HostInit)))
  {
    var (up, learn) := (SystemPort(true), Learn(mac, port));
    RunAppend(c, [], up);
    RunAppend(c, [up], learn);
    assert [] + [up] == [up] && [up] + [learn] == [up, learn];
    FreshDeviceLeaks(c, mac, port, group);
  }

  /** So does a second device learned on a port. */
  lemma ClashIsReachable(c: Config, a: Mac, b: Mac, port: Port)
    requires a != b && !c.vlanMode
    ensures Harmful(c, Run(c, [Learn(a, port)]), Learn(b, port))
    ensures InOrder(Run(c, [Learn(a, port)]))
  {
    RunAppend(c, [], Learn(a, port));
    assert [] + [Learn(a, port)] == [Learn(a, port)];
    CreateKeepsOrderIff(INITIAL, a, Some(port));
  }

  lemma FreshDeviceLeaks(c: Config, mac: Mac, port: Port, group: Group)
    requires c.maxHosts != Some(0)
    ensures Harmful(c, Create(INITIAL.(systemActive := true), mac, Some(port)),
                    TriggerDevice(mac, false, Env(group, true, 1, HostInit)))
  {
    var s := Create(INITIAL.(systemActive := true), mac, Some(port));
    assert Hosted(s.devices) == {};
    assert forall id :: !Named(s, id, group);
  }
}
