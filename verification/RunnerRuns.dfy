/**
 * What the scheduler keeps over every run, whatever fails on the way: the host limit, a queue of
 * distinct waiting devices in the order they came, the shares of the nine gateway sets, and one
 * gateway per group of attached devices.
 */
module RunnerRuns {
  import opened Octets
  import opened Runner

  datatype Event =
    | Learn(mac: Mac, port: Port)
    | DeviceLearn(mac: Mac)
    | StartSession(mac: Mac)
    | TriggerDevice(mac: Mac, remote: bool, env: Env)
    | ConsiderQueue(env: Env)
    | Finish(mac: Mac, failed: bool)
    | ActivateGateway(id: nat)
    | SystemPort(active: bool)

  type Devices = map<Mac, Device>
  type Pool = map<nat, Gateway>

  // ---- the tables -----------------------------------------------------------------------------

  ghost predicate Uses(gws: Pool, n: nat)
  {
    exists id :: id in gws && gws[id].portSet == n
  }

  /** Free sets and sets of live gateways share out 1 to 9, no set twice. */
  ghost predicate Partition(free: set<nat>, gws: Pool)
  {
    && (forall n :: n in free ==> 1 <= n <= MAX_GATEWAYS)
    && (forall id :: id in gws ==> 1 <= gws[id].portSet <= MAX_GATEWAYS && gws[id].portSet !in free)
    && (forall n :: 1 <= n <= MAX_GATEWAYS ==> n in free || Uses(gws, n))
    && (forall i, j :: i in gws && j in gws && i != j ==> gws[i].portSet != gws[j].portSet)
  }

  ghost predicate NoneIdle(gws: Pool)
  {
    forall id :: id in gws ==> gws[id].targets != {}
  }

  ghost predicate Below(gws: Pool, next: nat)
  {
    forall id :: id in gws ==> id < next
  }

  /** A device with a gateway is one of its targets. */
  ghost predicate Pointing(devices: Devices, gws: Pool)
  {
    forall m :: m in devices && devices[m].gateway.Some? ==>
      devices[m].gateway.value in gws && m in gws[devices[m].gateway.value].targets
  }

  /** Devices of one group that have gateways have the same one. */
  ghost predicate Shared(devices: Devices)
  {
    forall m, n :: m in devices && n in devices ==>
      devices[m].gateway.Some? && devices[n].gateway.Some? && devices[m].group == devices[n].group ==>
        devices[m].gateway == devices[n].gateway
  }

  ghost predicate Distinct(queue: seq<Mac>)
  {
    forall i, j :: 0 <= i < j < |queue| ==> queue[i] != queue[j]
  }

  ghost predicate Waiting(devices: Devices, queue: seq<Mac>)
  {
    && (forall i :: 0 <= i < |queue| ==> queue[i] in devices && !devices[queue[i]].host)
    && Distinct(queue)
  }

  ghost predicate HostIffGateway(devices: Devices)
  {
    forall m :: m in devices ==> (devices[m].host <==> devices[m].gateway.Some?)
  }

  ghost predicate WithinLimit(c: Config, devices: Devices)
  {
    c.maxHosts.Some? ==> |Hosted(devices)| <= c.maxHosts.value
  }

  /** Only a runner that learns on ports has devices with ports, and only one that does not makes them wait. */
  ghost predicate Modes(c: Config, devices: Devices)
  {
    && (c.vlanMode ==> forall m :: m in devices ==> devices[m].port.None?)
    && (!(c.vlanMode && c.server) ==> forall m :: m in devices ==> !devices[m].waitRemote)
  }

  ghost predicate PoolSafe(s: State)
  {
    Partition(s.gatewaySets, s.gateways) && NoneIdle(s.gateways) && Below(s.gateways, s.nextGateway)
  }

  ghost predicate DevicesSafe(s: State)
  {
    Pointing(s.devices, s.gateways) && Shared(s.devices) && Waiting(s.devices, s.queue)
  }

  /** What holds after every run. */
  ghost predicate Safe(c: Config, s: State)
  {
    PoolSafe(s) && DevicesSafe(s) && HostIffGateway(s.devices) && WithinLimit(c, s.devices) && Modes(c, s.devices)
  }

  // ---- steps and runs -------------------------------------------------------------------------

  /** An event that cannot happen in a state leaves it as it is. */
  ghost function Step(c: Config, s: State, e: Event): State
    requires Waiting(s.devices, s.queue)
  {
    match e
    case Learn(mac, port) => if c.vlanMode then s else Create(s, mac, Some(port))
    case DeviceLearn(mac) => if c.vlanMode then LearnDevice(s, mac, c.server) else s
    case StartSession(mac) => if c.server then LearnDevice(s, mac, false) else s
    case TriggerDevice(mac, remote, env) =>
      if mac in s.devices && PickIsFree(s, env) then Trigger(c, s, mac, remote, env) else s
    case ConsiderQueue(env) =>
      assert forall m <- s.queue :: m in s.devices;
      if PickIsFree(s, env) then Consider(c, s, env) else s
    case Finish(mac, failed) =>
      if mac in s.devices && s.devices[mac].host then Complete(c, s, mac, failed) else s
    case ActivateGateway(id) =>
      if id in s.gateways then s.(gateways := s.gateways[id := s.gateways[id].(activated := true)]) else s
    case SystemPort(active) => s.(systemActive := active)
  }

  /** The state after a run of events from the start. */
  ghost function Run(c: Config, events: seq<Event>): (s: State)
    ensures Safe(c, s)
  {
    if events == [] then
      InitialSafe(c);
      INITIAL
    else
      var (n, e) := (|events| - 1, events[|events| - 1]);
      var s := Run(c, events[..n]);
      StepKeepsSafe(c, s, e);
      Step(c, s, e)
  }

  lemma InitialSafe(c: Config)
    ensures Safe(c, INITIAL)
  {
    assert Hosted(INITIAL.devices) == {};
  }

  lemma RunAppend(c: Config, events: seq<Event>, e: Event)
    ensures Run(c, events + [e]) == Step(c, Run(c, events), e)
  {
    Snoc(events, e);
  }

  // ---- the pool of gateways -------------------------------------------------------------------

  lemma AddGateway(free: set<nat>, gws: Pool, id: nat, g: Gateway)
    requires Partition(free, gws) && id !in gws && g.portSet in free
    ensures Partition(free - {g.portSet}, gws[id := g])
  {
    var after := gws[id := g];
    forall n | 1 <= n <= MAX_GATEWAYS && n !in free - {g.portSet} ensures Uses(after, n) {
      if n == g.portSet {
        assert after[id].portSet == n;
      } else {
        var i :| i in gws && gws[i].portSet == n;
        assert after[i].portSet == n;
      }
    }
  }

  lemma ChangeGateway(free: set<nat>, gws: Pool, id: nat, g: Gateway)
    requires Partition(free, gws) && id in gws && g.portSet == gws[id].portSet
    ensures Partition(free, gws[id := g])
  {
    var after := gws[id := g];
    forall n | 1 <= n <= MAX_GATEWAYS && n !in free ensures Uses(after, n) {
      var i :| i in gws && gws[i].portSet == n;
      assert after[i].portSet == n;
    }
  }

  lemma RetireGateway(free: set<nat>, gws: Pool, id: nat)
    requires Partition(free, gws) && id in gws
    ensures Partition(free + {gws[id].portSet}, gws - {id})
  {
    var after := gws - {id};
    forall n | 1 <= n <= MAX_GATEWAYS && n !in free + {gws[id].portSet} ensures Uses(after, n) {
      var i :| i in gws && gws[i].portSet == n;
      assert after[i].portSet == n;
    }
  }

  // ---- the end of a device --------------------------------------------------------------------

  /** A gateway left with some targets, or retired when it has none. */
  ghost function Left(gws: Pool, id: nat, rest: set<Mac>): Pool
    requires id in gws
  {
    if rest == {} then gws - {id} else gws[id := gws[id].(targets := rest)]
  }

  lemma LeaveKeepsPool(free: set<nat>, gws: Pool, id: nat, rest: set<Mac>)
    requires Partition(free, gws) && NoneIdle(gws) && id in gws
    ensures Partition(if rest == {} then free + {gws[id].portSet} else free, Left(gws, id, rest))
    ensures NoneIdle(Left(gws, id, rest)) && Left(gws, id, rest).Keys <= gws.Keys
  {
    if rest == {} {
      RetireGateway(free, gws, id);
    } else {
      ChangeGateway(free, gws, id, gws[id].(targets := rest));
    }
  }

  lemma LeaveKeepsPointing(devices: Devices, gws: Pool, mac: Mac, id: nat)
    requires Pointing(devices, gws) && mac in devices && id in gws
    ensures Pointing(devices - {mac}, Left(gws, id, gws[id].targets - {mac}))
  {
    var rest := gws[id].targets - {mac};
    var after := Left(gws, id, rest);
    forall m | m in devices && m != mac && devices[m].gateway.Some?
      ensures devices[m].gateway.value in after && m in after[devices[m].gateway.value].targets
    {
      if devices[m].gateway.value == id {
        assert m in rest;
      }
    }
  }

  lemma LeaveKeepsWaiting(devices: Devices, queue: seq<Mac>, mac: Mac)
    requires Waiting(devices, queue) && mac !in queue
    ensures Waiting(devices - {mac}, queue)
  {
  }

  lemma LeaveKeepsLimit(c: Config, devices: Devices, mac: Mac)
    requires WithinLimit(c, devices)
    ensures WithinLimit(c, devices - {mac})
  {
    SmallerSet(Hosted(devices - {mac}), Hosted(devices));
  }

  /** The pool as it was, or with a device taken off a gateway. */
  ghost predicate SamePool(s: State, t: State)
  {
    t.gateways == s.gateways && t.gatewaySets == s.gatewaySets && t.nextGateway == s.nextGateway
  }

  ghost predicate LeftPool(s: State, t: State, mac: Mac, id: nat)
  {
    SamePool(Detach(s, mac, id), t)
  }

  /** The device is gone; its gateway has let go of it or, when a call failed, has not. */
  ghost predicate Gone(s: State, t: State, mac: Mac)
    requires mac in s.devices
  {
    && t.devices == s.devices - {mac} && t.queue == s.queue
    && (SamePool(s, t) || (s.devices[mac].gateway.Some? && LeftPool(s, t, mac, s.devices[mac].gateway.value)))
  }

  lemma GoneKeepsPool(s: State, t: State, mac: Mac)
    requires PoolSafe(s) && mac in s.devices && Gone(s, t, mac)
    ensures PoolSafe(t)
  {
    var d := s.devices[mac];
    if d.gateway.Some? && d.gateway.value in s.gateways {
      var id := d.gateway.value;
      LeaveKeepsPool(s.gatewaySets, s.gateways, id, s.gateways[id].targets - {mac});
    }
  }

  lemma GoneKeepsDevices(s: State, t: State, mac: Mac)
    requires DevicesSafe(s) && mac in s.devices && mac !in s.queue && Gone(s, t, mac)
    ensures DevicesSafe(t)
  {
    LeaveKeepsWaiting(s.devices, s.queue, mac);
    var d := s.devices[mac];
    if d.gateway.Some? {
      LeaveKeepsPointing(s.devices, s.gateways, mac, d.gateway.value);
    }
  }

  lemma CancelEffect(s: State, mac: Mac)
    requires mac in s.devices && mac !in s.queue
    ensures var (t, d) := (Cancel(s, mac), s.devices[mac]);
            && t.devices == s.devices && t.queue == s.queue
            && (SamePool(s, t) || (d.gateway.Some? && LeftPool(s, t, mac, d.gateway.value)))
  {
  }

  lemma CompleteIsGone(c: Config, s: State, mac: Mac, failed: bool)
    requires mac in s.devices && mac !in s.queue
    ensures Gone(s, Complete(c, s, mac, failed), mac)
  {
    CancelEffect(s, mac);
  }

  lemma CompleteKeepsSafe(c: Config, s: State, mac: Mac, failed: bool)
    requires Safe(c, s) && mac in s.devices && s.devices[mac].host
    ensures Safe(c, Complete(c, s, mac, failed))
  {
    var t := Complete(c, s, mac, failed);
    HostedIsNotQueued(s.devices, s.queue, mac);
    CompleteIsGone(c, s, mac, failed);
    GoneKeepsPool(s, t, mac);
    GoneKeepsDevices(s, t, mac);
    LeaveKeepsLimit(c, s.devices, mac);
  }

  lemma HostedIsNotQueued(devices: Devices, queue: seq<Mac>, mac: Mac)
    requires Waiting(devices, queue) && mac in devices && devices[mac].host
    ensures mac !in queue
  {
  }

  // ---- activation -----------------------------------------------------------------------------

  /** A device that has just been attached: all is safe but for its missing host. */
  ghost predicate Attached(c: Config, s: State, mac: Mac, id: nat)
  {
    && PoolSafe(s) && DevicesSafe(s)
    && mac in s.devices && mac !in s.queue && !s.devices[mac].host && s.devices[mac].gateway == Some(id)
    && HostIffGateway(s.devices - {mac}) && Modes(c, s.devices)
    && (c.maxHosts.Some? ==> |Hosted(s.devices)| < c.maxHosts.value)
  }

  /** A launch ends with the device running, or gone. */
  ghost predicate Launched(s: State, t: State, mac: Mac)
    requires mac in s.devices
  {
    || Gone(s, t, mac)
    || (t.devices == s.devices[mac := s.devices[mac].(host := true)] && t.queue == s.queue && SamePool(s, t))
  }

  lemma CompleteRunning(c: Config, s: State, t: State, mac: Mac)
    requires mac in s.devices && mac !in s.queue
    requires t.devices == s.devices[mac := s.devices[mac].(host := true)] && t.queue == s.queue && SamePool(s, t)
    ensures Gone(s, Complete(c, t, mac, true), mac)
  {
    CompleteIsGone(c, t, mac, true);
    assert t.devices - {mac} == s.devices - {mac};
    if s.devices[mac].gateway.Some? {
      DetachFromSamePool(s, t, mac, s.devices[mac].gateway.value);
    }
  }

  lemma DetachFromSamePool(s: State, t: State, mac: Mac, id: nat)
    requires SamePool(s, t)
    ensures SamePool(Detach(s, mac, id), Detach(t, mac, id))
  {
    assert Detach(t, mac, id)
        == Detach(s, mac, id).(devices := t.devices, setIds := t.setIds, queue := t.queue, directed := t.directed,
             systemActive := t.systemActive, runTests := t.runTests, runCount := t.runCount);
  }

  lemma LaunchEffect(c: Config, s: State, mac: Mac, id: nat, failure: Failure)
    requires mac in s.devices && mac !in s.queue && s.devices[mac].gateway == Some(id) && id in s.gateways
    ensures Launched(s, Launch(c, s, mac, id, failure), mac)
  {
    if failure != HostBuild {
      CompleteRunning(c, s, WithHost(s, mac), mac);
      CompleteRunning(c, s, Running(s, mac, id), mac);
    }
  }

  lemma RunningKeepsDevices(c: Config, devices: Devices, gws: Pool, queue: seq<Mac>, mac: Mac)
    requires mac in devices && mac !in queue && devices[mac].gateway.Some? && HostIffGateway(devices - {mac})
    requires Pointing(devices, gws) && Shared(devices) && Waiting(devices, queue)
    requires c.maxHosts.Some? ==> |Hosted(devices)| < c.maxHosts.value
    ensures var after := devices[mac := devices[mac].(host := true)];
            && Pointing(after, gws) && Shared(after) && Waiting(after, queue)
            && HostIffGateway(after) && WithinLimit(c, after)
  {
    var after := devices[mac := devices[mac].(host := true)];
    assert Hosted(after) == Hosted(devices) + {mac};
    forall m | m in devices && m != mac ensures devices[m].host <==> devices[m].gateway.Some? {
      assert m in devices - {mac};
    }
  }

  lemma LaunchKeepsSafe(c: Config, s: State, mac: Mac, id: nat, failure: Failure)
    requires Attached(c, s, mac, id)
    ensures Safe(c, Launch(c, s, mac, id, failure))
  {
    var t := Launch(c, s, mac, id, failure);
    LaunchEffect(c, s, mac, id, failure);
    if Gone(s, t, mac) {
      GoneKeepsPool(s, t, mac);
      GoneKeepsDevices(s, t, mac);
      LeaveKeepsLimit(c, s.devices, mac);
    } else {
      RunningKeepsDevices(c, s.devices, s.gateways, s.queue, mac);
    }
  }

  /** Attaching to an existing gateway, or to a new one without targets. */
  lemma AttachKeepsPool(u: State, mac: Mac, id: nat)
    requires Partition(u.gatewaySets, u.gateways) && Below(u.gateways, u.nextGateway)
    requires mac in u.devices && id in u.gateways
    requires forall i :: i in u.gateways && i != id ==> u.gateways[i].targets != {}
    ensures PoolSafe(Attach(u, mac, id))
  {
    var g := u.gateways[id].(targets := u.gateways[id].targets + {mac});
    ChangeGateway(u.gatewaySets, u.gateways, id, g);
    assert mac in g.targets;
  }

  lemma AttachKeepsPointing(devices: Devices, gws: Pool, mac: Mac, id: nat)
    requires Pointing(devices, gws) && mac in devices && id in gws
    ensures Pointing(devices[mac := devices[mac].(gateway := Some(id))],
                     gws[id := gws[id].(targets := gws[id].targets + {mac})])
  {
  }

  lemma AttachKeepsShared(s: State, mac: Mac, id: nat, group: Group)
    requires Shared(s.devices) && mac in s.devices && s.devices[mac].group == Some(group)
    requires Existing(s, group) <= {id}
    ensures Shared(s.devices[mac := s.devices[mac].(gateway := Some(id))])
  {
    forall m | m in s.devices && s.devices[m].group == Some(group) && s.devices[m].gateway.Some?
      ensures s.devices[m].gateway == Some(id)
    {
      assert s.devices[m].gateway.value in Existing(s, group);
    }
  }

  lemma AttachKeepsHosts(devices: Devices, queue: seq<Mac>, mac: Mac, id: nat)
    requires mac in devices && Waiting(devices, queue) && HostIffGateway(devices)
    ensures var after := devices[mac := devices[mac].(gateway := Some(id))];
            Waiting(after, queue) && HostIffGateway(after - {mac}) && Hosted(after) == Hosted(devices)
  {
  }

  /** `u` is `t`, or `t` with a fresh gateway that has no targets yet. */
  lemma AttachGivesAttached(c: Config, t: State, u: State, mac: Mac, id: nat, group: Group)
    requires Safe(c, t) && mac in t.devices && !t.devices[mac].host && mac !in t.queue && HasCapacity(c, t)
    requires t.devices[mac].group == Some(group) && Existing(t, group) <= {id}
    requires u.devices == t.devices && u.queue == t.queue && id in u.gateways
    requires Partition(u.gatewaySets, u.gateways) && Below(u.gateways, u.nextGateway) && Pointing(u.devices, u.gateways)
    requires forall i :: i in u.gateways && i != id ==> u.gateways[i].targets != {}
    ensures Attached(c, Attach(u, mac, id), mac, id)
  {
    AttachKeepsPool(u, mac, id);
    AttachKeepsPointing(u.devices, u.gateways, mac, id);
    AttachKeepsShared(t, mac, id, group);
    AttachKeepsHosts(t.devices, t.queue, mac, id);
  }

  lemma NewGatewayKeeps(t: State, group: Group, portSet: nat)
    requires PoolSafe(t) && Pointing(t.devices, t.gateways) && portSet in t.gatewaySets
    ensures var u := NewGateway(t, group, portSet);
            && Partition(u.gatewaySets, u.gateways) && Below(u.gateways, u.nextGateway)
            && Pointing(u.devices, u.gateways) && t.nextGateway in u.gateways
            && forall i :: i in u.gateways && i != t.nextGateway ==> u.gateways[i].targets != {}
  {
    AddGateway(t.gatewaySets, t.gateways, t.nextGateway, Gateway(group, portSet, {}, false));
  }

  /** The device with its group set, as an activation begins. */
  ghost function Grouped(s: State, mac: Mac, group: Group): State
    requires mac in s.devices
  {
    s.(devices := s.devices[mac := s.devices[mac].(group := Some(group))])
  }

  /** Two registries that differ in the group or the waiting flag of a device without a gateway. */
  lemma RelabelKeepsSafe(c: Config, s: State, mac: Mac, d: Device)
    requires Safe(c, s) && mac in s.devices && !s.devices[mac].host
    requires d == s.devices[mac].(group := d.group, waitRemote := d.waitRemote) && (d.waitRemote ==> s.devices[mac].waitRemote)
    ensures Safe(c, s.(devices := s.devices[mac := d])) && Hosted(s.devices[mac := d]) == Hosted(s.devices)
  {
    RelabelKeepsDevices(s.devices, s.gateways, s.queue, mac, d);
  }

  lemma RelabelKeepsDevices(devices: Devices, gws: Pool, queue: seq<Mac>, mac: Mac, d: Device)
    requires Pointing(devices, gws) && Shared(devices) && Waiting(devices, queue) && HostIffGateway(devices)
    requires mac in devices && !devices[mac].host
    requires d == devices[mac].(group := d.group, waitRemote := d.waitRemote)
    ensures var after := devices[mac := d];
            && Pointing(after, gws) && Shared(after) && Waiting(after, queue) && HostIffGateway(after)
            && Hosted(after) == Hosted(devices)
  {
  }

  /** Devices of one group share one gateway, so the assertion on existing gateways never fires. */
  lemma GroupHasOneGateway(s: State, group: Group)
    requires Shared(s.devices)
    ensures |Existing(s, group)| <= 1
  {
    var existing := Existing(s, group);
    if id :| id in existing {
      assert forall other :: other in existing ==> other == id;
      assert existing == {id};
    }
  }

  lemma SingleElement(s: set<nat>, x: nat)
    requires x in s && |s| <= 1
    ensures s == {x}
  {
    SmallerSet({x}, s);
  }

  /** How an activation goes, once the device has its group. */
  datatype Outcome = Ignored | Failed | OnNew(portSet: nat) | OnExisting(id: nat)

  ghost function Plan(s: State, mac: Mac, env: Env): Outcome
    requires mac in s.devices && Shared(s.devices)
  {
    var (d, existing) := (s.devices[mac], Existing(Grouped(s, mac, env.group), env.group));
    if d.port.Some? && !env.portActive then Ignored
    else if existing != {} then var id :| id in existing; OnExisting(id)
    else if s.gatewaySets == {} || env.failure == GatewayInit then Failed
    else OnNew(ChosenSet(s, d, env.pick))
  }

  /** An activation follows its plan. */
  lemma ActivateFollowsPlan(c: Config, s: State, mac: Mac, env: Env)
    requires mac in s.devices && Shared(s.devices) && Shared(Grouped(s, mac, env.group).devices)
    ensures var (r, t) := (Activate(c, s, mac, env), Grouped(s, mac, env.group));
            match Plan(s, mac, env)
            case Ignored => r == s
            case Failed => r == t.(runTests := t.runTests && !c.failMode)
            case OnNew(portSet) => r == Join(c, NewGateway(t, env.group, portSet), mac, t.nextGateway, env.failure)
            case OnExisting(id) => Existing(t, env.group) == {id} && r == Join(c, t, mac, id, env.failure)
  {
    var t := Grouped(s, mac, env.group);
    GroupHasOneGateway(t, env.group);
    if Plan(s, mac, env).OnExisting? {
      SingleElement(Existing(t, env.group), Plan(s, mac, env).id);
    }
  }

  lemma ExistingIsLive(s: State, group: Group, id: nat)
    requires Pointing(s.devices, s.gateways) && id in Existing(s, group)
    ensures id in s.gateways
  {
  }

  lemma ChosenIsFree(s: State, mac: Mac, env: Env)
    requires mac in s.devices && PickIsFree(s, env) && s.gatewaySets != {}
    ensures ChosenSet(s, s.devices[mac], env.pick) in s.gatewaySets
  {
  }

  lemma JoinExistingKeepsSafe(c: Config, t: State, mac: Mac, id: nat, group: Group, failure: Failure)
    requires Safe(c, t) && mac in t.devices && !t.devices[mac].host && mac !in t.queue && HasCapacity(c, t)
    requires t.devices[mac].group == Some(group) && Existing(t, group) == {id}
    ensures Safe(c, Join(c, t, mac, id, failure))
  {
    ExistingIsLive(t, group, id);
    AttachGivesAttached(c, t, t, mac, id, group);
    LaunchKeepsSafe(c, Attach(t, mac, id), mac, id, failure);
  }

  lemma JoinNewKeepsSafe(c: Config, t: State, mac: Mac, group: Group, portSet: nat, failure: Failure)
    requires Safe(c, t) && mac in t.devices && !t.devices[mac].host && mac !in t.queue && HasCapacity(c, t)
    requires t.devices[mac].group == Some(group) && Existing(t, group) == {} && portSet in t.gatewaySets
    ensures Safe(c, Join(c, NewGateway(t, group, portSet), mac, t.nextGateway, failure))
  {
    var (u, id) := (NewGateway(t, group, portSet), t.nextGateway);
    NewGatewayKeeps(t, group, portSet);
    AttachGivesAttached(c, t, u, mac, id, group);
    LaunchKeepsSafe(c, Attach(u, mac, id), mac, id, failure);
    assert mac !in u.gateways[id].targets && !u.gateways[id].activated;
  }

  lemma ActivateKeepsSafe(c: Config, s: State, mac: Mac, env: Env)
    requires Safe(c, s) && mac in s.devices && !s.devices[mac].host && mac !in s.queue
    requires HasCapacity(c, s) && PickIsFree(s, env)
    ensures Safe(c, Activate(c, s, mac, env))
  {
    var t := Grouped(s, mac, env.group);
    RelabelKeepsSafe(c, s, mac, t.devices[mac]);
    ActivateFollowsPlan(c, s, mac, env);
    match Plan(s, mac, env)
    case Ignored =>
    case Failed =>
    case OnNew(portSet) =>
      ChosenIsFree(s, mac, env);
      JoinNewKeepsSafe(c, t, mac, env.group, portSet, env.failure);
    case OnExisting(id) =>
      JoinExistingKeepsSafe(c, t, mac, id, env.group, env.failure);
  }

  // ---- every step -----------------------------------------------------------------------------

  lemma CreateKeepsSafe(c: Config, s: State, mac: Mac, port: Option<Port>)
    requires Safe(c, s) && (c.vlanMode ==> port.None?)
    ensures Safe(c, Create(s, mac, port))
  {
    if mac !in s.devices {
      var t := Create(s, mac, port);
      CreateKeepsDevices(s.devices, s.gateways, s.queue, mac, t.devices[mac]);
    }
  }

  lemma CreateKeepsDevices(devices: Devices, gws: Pool, queue: seq<Mac>, mac: Mac, d: Device)
    requires Pointing(devices, gws) && Shared(devices) && Waiting(devices, queue) && HostIffGateway(devices)
    requires mac !in devices && d.gateway.None? && !d.host
    ensures var after := devices[mac := d];
            && Pointing(after, gws) && Shared(after) && Waiting(after, queue) && HostIffGateway(after)
            && Hosted(after) == Hosted(devices)
  {
  }

  lemma SettingsKeepSafe(c: Config, s: State, mac: Mac, waits: bool)
    requires Safe(c, s) && mac in s.devices && (waits ==> c.vlanMode && c.server)
    ensures Safe(c, s.(devices := s.devices[mac := Learned(s.devices[mac], waits)]))
  {
    SettingsKeepDevices(s.devices, s.gateways, s.queue, mac, Learned(s.devices[mac], waits));
  }

  lemma SettingsKeepDevices(devices: Devices, gws: Pool, queue: seq<Mac>, mac: Mac, d: Device)
    requires Pointing(devices, gws) && Shared(devices) && Waiting(devices, queue) && HostIffGateway(devices)
    requires mac in devices && d.gateway == devices[mac].gateway && d.group == devices[mac].group && d.host == devices[mac].host
    ensures var after := devices[mac := d];
            && Pointing(after, gws) && Shared(after) && Waiting(after, queue) && HostIffGateway(after)
            && Hosted(after) == Hosted(devices)
  {
  }

  lemma EnqueueKeeps(devices: Devices, queue: seq<Mac>, mac: Mac)
    requires Waiting(devices, queue) && mac in devices && !devices[mac].host && mac !in queue
    ensures Waiting(devices, queue + [mac])
  {
  }

  lemma DequeueKeeps(devices: Devices, queue: seq<Mac>)
    requires Waiting(devices, queue) && queue != []
    ensures Waiting(devices, queue[1..]) && queue[0] !in queue[1..]
    ensures queue[0] in devices && !devices[queue[0]].host
  {
  }

  /** The device as it is once its trigger was taken. */
  ghost function Taken(s: State, mac: Mac): State
    requires mac in s.devices
  {
    s.(devices := s.devices[mac := s.devices[mac].(waitRemote := false)])
  }

  ghost predicate WillActivate(c: Config, s: State, mac: Mac, remote: bool)
    requires mac in s.devices
  {
    var d := s.devices[mac];
    s.systemActive && !d.host && s.runTests && (d.waitRemote ==> remote) && mac !in s.queue && HasCapacity(c, s)
  }

  lemma TriggerKeepsSafe(c: Config, s: State, mac: Mac, remote: bool, env: Env)
    requires Safe(c, s) && mac in s.devices && PickIsFree(s, env)
    ensures Safe(c, Trigger(c, s, mac, remote, env))
  {
    var t := Taken(s, mac);
    if s.systemActive && !s.devices[mac].host && s.runTests && (s.devices[mac].waitRemote ==> remote) && mac !in s.queue {
      RelabelKeepsSafe(c, s, mac, t.devices[mac]);
      if HasCapacity(c, t) {
        ActivateKeepsSafe(c, t, mac, env);
      } else {
        EnqueueKeeps(t.devices, t.queue, mac);
      }
    }
  }

  lemma ConsiderKeepsSafe(c: Config, s: State, env: Env)
    requires Safe(c, s) && PickIsFree(s, env) && s.queue != [] && HasCapacity(c, s)
    ensures s.queue[0] in s.devices
    ensures Safe(c, Activate(c, s.(queue := s.queue[1..]), s.queue[0], env))
  {
    DequeueKeeps(s.devices, s.queue);
    ActivateKeepsSafe(c, s.(queue := s.queue[1..]), s.queue[0], env);
  }

  lemma ActivatedGatewayKeeps(s: State, id: nat)
    requires PoolSafe(s) && Pointing(s.devices, s.gateways) && id in s.gateways
    ensures var t := s.(gateways := s.gateways[id := s.gateways[id].(activated := true)]);
            PoolSafe(t) && Pointing(t.devices, t.gateways)
  {
    ChangeGateway(s.gatewaySets, s.gateways, id, s.gateways[id].(activated := true));
  }

  /** Every step keeps what is safe, whatever the event and whatever fails in it. */
  lemma StepKeepsSafe(c: Config, s: State, e: Event)
    requires Safe(c, s)
    ensures Safe(c, Step(c, s, e))
  {
    match e
    case Learn(mac, port) =>
      if !c.vlanMode {
        CreateKeepsSafe(c, s, mac, Some(port));
      }
    case DeviceLearn(mac) =>
      CreateKeepsSafe(c, s, mac, None);
      SettingsKeepSafe(c, Create(s, mac, None), mac, c.vlanMode && c.server);
    case StartSession(mac) =>
      CreateKeepsSafe(c, s, mac, None);
      SettingsKeepSafe(c, Create(s, mac, None), mac, false);
    case TriggerDevice(mac, remote, env) =>
      if mac in s.devices && PickIsFree(s, env) {
        TriggerKeepsSafe(c, s, mac, remote, env);
      }
    case ConsiderQueue(env) =>
      if PickIsFree(s, env) && s.queue != [] && HasCapacity(c, s) {
        ConsiderKeepsSafe(c, s, env);
      }
    case Finish(mac, failed) =>
      if mac in s.devices && s.devices[mac].host {
        CompleteKeepsSafe(c, s, mac, failed);
      }
    case ActivateGateway(id) =>
      if id in s.gateways {
        ActivatedGatewayKeeps(s, id);
      }
    case SystemPort(active) =>
  }

  /**
   * After any run at all: never more hosts than the limit; every gateway set is free or belongs to
   * exactly one live gateway; no live gateway is without targets, and a device with a gateway is
   * one of them; devices of one group share one gateway; the queue holds registered devices without
   * a host, none of them twice; no device both has a port and waits for a remote trigger.
   */
  lemma RunsAreSafe(c: Config, events: seq<Event>, group: Group, n: nat)
    requires 1 <= n <= MAX_GATEWAYS
    ensures var s := Run(c, events);
            && (c.maxHosts.Some? ==> |Hosted(s.devices)| <= c.maxHosts.value)
            && (n in s.gatewaySets <==> !Uses(s.gateways, n))
            && (forall i, j :: i in s.gateways && j in s.gateways && s.gateways[i].portSet == s.gateways[j].portSet ==> i == j)
            && (forall id :: id in s.gateways ==> s.gateways[id].targets != {})
            && (forall m, id :: m in s.devices && s.devices[m].gateway == Some(id) ==> id in s.gateways && m in s.gateways[id].targets)
            && |Existing(s, group)| <= 1
            && (forall i :: 0 <= i < |s.queue| ==> s.queue[i] in s.devices && !s.devices[s.queue[i]].host)
            && (forall i, j :: 0 <= i < j < |s.queue| ==> s.queue[i] != s.queue[j])
            && (forall m :: m in s.devices ==> !(s.devices[m].port.Some? && s.devices[m].waitRemote))
  {
    GroupHasOneGateway(Run(c, events), group);
  }
}
