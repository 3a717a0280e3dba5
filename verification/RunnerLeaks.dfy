/**
 * What becomes of a gateway that kept a device which is gone: no continuation of the run takes that
 * target off it again, so its set is lost to the pool for good.
 */
module RunnerLeaks {
  import opened Octets
  import opened Runner
  import opened RunnerRuns
  import opened RunnerQueue

  ghost predicate Holds(gws: Pool, mac: Mac, id: nat, portSet: nat)
  {
    id in gws && gws[id].portSet == portSet && mac in gws[id].targets
  }

  ghost predicate PointsAt(devices: Devices, mac: Mac, id: nat)
  {
    mac in devices && devices[mac].gateway == Some(id)
  }

  /** The gateway holds a target that no registered device answers for. */
  ghost predicate Stale(s: State, mac: Mac, id: nat, portSet: nat)
  {
    Holds(s.gateways, mac, id, portSet) && !PointsAt(s.devices, mac, id)
  }

  // ---- every step keeps a stale target ----------------------------------------------------------

  lemma DetachKeepsHolds(s: State, m: Mac, j: nat, mac: Mac, id: nat, portSet: nat)
    requires Holds(s.gateways, mac, id, portSet) && !(m == mac && j == id)
    ensures Holds(Detach(s, m, j).gateways, mac, id, portSet)
  {
    if j == id && id in s.gateways {
      assert mac in s.gateways[id].targets - {m};
    }
  }

  lemma GoneKeepsStale(s: State, t: State, m: Mac, mac: Mac, id: nat, portSet: nat)
    requires Stale(s, mac, id, portSet) && m in s.devices && Gone(s, t, m)
    ensures Stale(t, mac, id, portSet)
  {
    if s.devices[m].gateway.Some? {
      DetachKeepsHolds(s, m, s.devices[m].gateway.value, mac, id, portSet);
    }
  }

  /** A gateway does not take a device under a name it already holds. */
  lemma JoinKeepsStale(c: Config, s: State, m: Mac, j: nat, failure: Failure, mac: Mac, id: nat, portSet: nat)
    requires Stale(s, mac, id, portSet) && m in s.devices && m !in s.queue
    ensures Stale(Join(c, s, m, j, failure), mac, id, portSet)
  {
    if Takes(s, j, m) {
      var u := Attach(s, m, j);
      var t := Launch(c, u, m, j, failure);
      assert Stale(u, mac, id, portSet);
      LaunchEffect(c, u, m, j, failure);
      if Gone(u, t, m) {
        GoneKeepsStale(u, t, m, mac, id, portSet);
      }
    }
  }

  lemma ActivateKeepsStale(c: Config, s: State, m: Mac, env: Env, mac: Mac, id: nat, portSet: nat)
    requires Safe(c, s) && m in s.devices && !s.devices[m].host && m !in s.queue && Stale(s, mac, id, portSet)
    ensures Stale(Activate(c, s, m, env), mac, id, portSet)
  {
    var t := Grouped(s, m, env.group);
    RelabelKeepsSafe(c, s, m, t.devices[m]);
    ActivateFollowsPlan(c, s, m, env);
    match Plan(s, m, env)
    case Ignored =>
    case Failed =>
    case OnNew(n) => JoinKeepsStale(c, NewGateway(t, env.group, n), m, t.nextGateway, env.failure, mac, id, portSet);
    case OnExisting(j) => JoinKeepsStale(c, t, m, j, env.failure, mac, id, portSet);
  }

  lemma TriggerKeepsStale(c: Config, s: State, m: Mac, remote: bool, env: Env, mac: Mac, id: nat, portSet: nat)
    requires Safe(c, s) && m in s.devices && Stale(s, mac, id, portSet)
    ensures Stale(Trigger(c, s, m, remote, env), mac, id, portSet)
  {
    if WillActivate(c, s, m, remote) {
      var t := Taken(s, m);
      RelabelKeepsSafe(c, s, m, t.devices[m]);
      ActivateKeepsStale(c, t, m, env, mac, id, portSet);
    } else if !s.devices[m].host {
      RelabelKeepsSafe(c, s, m, Taken(s, m).devices[m]);
    }
  }

  /** An event that neither starts nor ends a device. */
  predicate Quiet(e: Event)
  {
    !e.TriggerDevice? && !e.ConsiderQueue? && !e.Finish?
  }

  /** Nothing a gateway has to do with is different, but for new devices without a gateway. */
  ghost predicate SameForGateways(s: State, t: State)
  {
    && t.gateways.Keys == s.gateways.Keys && t.directed == s.directed && t.runTests == s.runTests && t.queue == s.queue
    && t.runCount == s.runCount
    && (forall id :: id in s.gateways ==>
          t.gateways[id].targets == s.gateways[id].targets && t.gateways[id].portSet == s.gateways[id].portSet)
    && (forall m :: m in s.devices ==> m in t.devices && t.devices[m].gateway == s.devices[m].gateway && t.devices[m].port == s.devices[m].port)
    && (forall m :: m in t.devices && m !in s.devices ==> t.devices[m].gateway.None?)
  }

  lemma CreateIsSame(s: State, mac: Mac, port: Option<Port>)
    ensures SameForGateways(s, Create(s, mac, port))
  {
  }

  lemma LearnDeviceIsSame(s: State, mac: Mac, waits: bool)
    requires waits && mac in s.devices ==> s.devices[mac].port.None?
    ensures SameForGateways(s, LearnDevice(s, mac, waits))
  {
    CreateIsSame(s, mac, None);
  }

  lemma QuietIsSame(c: Config, s: State, e: Event)
    requires Waiting(s.devices, s.queue) && Modes(c, s.devices) && Quiet(e)
    ensures SameForGateways(s, Step(c, s, e))
  {
    match e
    case Learn(mac, port) => CreateIsSame(s, mac, Some(port));
    case DeviceLearn(mac) =>
      if c.vlanMode {
        LearnDeviceIsSame(s, mac, c.server);
      }
    case StartSession(mac) => LearnDeviceIsSame(s, mac, false);
    case ActivateGateway(id) =>
    case SystemPort(active) =>
  }

  lemma StepKeepsStale(c: Config, s: State, e: Event, mac: Mac, id: nat, portSet: nat)
    requires Safe(c, s) && Stale(s, mac, id, portSet)
    ensures Stale(Step(c, s, e), mac, id, portSet)
  {
    match e
    case TriggerDevice(m, remote, env) =>
      if m in s.devices {
        TriggerKeepsStale(c, s, m, remote, env, mac, id, portSet);
      }
    case ConsiderQueue(env) =>
      if s.queue != [] {
        DequeueKeeps(s.devices, s.queue);
        ActivateKeepsStale(c, s.(queue := s.queue[1..]), s.queue[0], env, mac, id, portSet);
      }
    case Finish(m, failed) =>
      if m in s.devices && s.devices[m].host {
        HostedIsNotQueued(s.devices, s.queue, m);
        CompleteIsGone(c, s, m, failed);
        GoneKeepsStale(s, Complete(c, s, m, failed), m, mac, id, portSet);
      }
    case _ => QuietIsSame(c, s, e);
  }

  /** Whatever happens afterwards, the stale target stays, and with it its gateway and set. */
  lemma {:induction false} StaleForEver(c: Config, events: seq<Event>, more: seq<Event>, mac: Mac, id: nat, portSet: nat)
    requires Stale(Run(c, events), mac, id, portSet)
    ensures Stale(Run(c, events + more), mac, id, portSet)
    ensures portSet !in Run(c, events + more).gatewaySets
    decreases |more|
  {
    if more == [] {
      Units(events);
    } else {
      var n := |more| - 1;
      StaleForEver(c, events, more[..n], mac, id, portSet);
      AppendSnoc(events, more);
      EventKeepsStale(c, events + more[..n], more[n], mac, id, portSet);
    }
    HeldIsTaken(Run(c, events + more), mac, id, portSet);
  }

  lemma EventKeepsStale(c: Config, events: seq<Event>, e: Event, mac: Mac, id: nat, portSet: nat)
    requires Stale(Run(c, events), mac, id, portSet)
    ensures Stale(Run(c, events + [e]), mac, id, portSet)
  {
    RunAppend(c, events, e);
    StepKeepsStale(c, Run(c, events), e, mac, id, portSet);
  }

  lemma HeldIsTaken(s: State, mac: Mac, id: nat, portSet: nat)
    requires PoolSafe(s) && Stale(s, mac, id, portSet)
    ensures portSet !in s.gatewaySets
  {
  }

  // ---- when a step leaves one -------------------------------------------------------------------

  ghost predicate StaleAt(s: State, mac: Mac, id: nat)
  {
    id in s.gateways && mac in s.gateways[id].targets && !PointsAt(s.devices, mac, id)
  }

  /** No target becomes stale but perhaps one. */
  ghost predicate OnlyStale(s: State, t: State, mac: Mac, id: nat)
  {
    forall m, j :: StaleAt(t, m, j) ==> StaleAt(s, m, j) || (m == mac && j == id)
  }

  lemma GoneOnlyStale(s: State, t: State, mac: Mac, id: nat)
    requires mac in s.devices && s.devices[mac].gateway == Some(id) && Gone(s, t, mac)
    ensures OnlyStale(s, t, mac, id)
  {
  }

  lemma CompleteStaleIff(c: Config, s: State, mac: Mac, id: nat, failed: bool)
    requires mac in s.devices && mac !in s.queue && s.devices[mac].host && s.devices[mac].gateway == Some(id)
    requires id in s.gateways && mac in s.gateways[id].targets
    ensures var port := s.devices[mac].port;
            StaleAt(Complete(c, s, mac, failed), mac, id) <==> port.Some? && port.value !in s.directed
  {
  }

  /** The failures of a launch after which the gateway is not told that its device is gone. */
  predicate LaunchLoses(s: State, mac: Mac, failure: Failure)
    requires mac in s.devices
  {
    var d := s.devices[mac];
    || (failure == HostInit && d.port.Some? && d.port.value !in s.directed)
    || (failure == HostBuild && d.setId.None?)
  }

  lemma LaunchStaleIff(c: Config, s: State, mac: Mac, id: nat, failure: Failure)
    requires mac in s.devices && mac !in s.queue && !s.devices[mac].host && s.devices[mac].gateway == Some(id)
    requires id in s.gateways && mac in s.gateways[id].targets
    ensures StaleAt(Launch(c, s, mac, id, failure), mac, id) <==> LaunchLoses(s, mac, failure)
    ensures OnlyStale(s, Launch(c, s, mac, id, failure), mac, id)
  {
    LaunchOnlyStale(c, s, mac, id, failure);
    if failure == HostBuild {
      BuildStaleIff(c, s, mac, id);
    } else {
      CompleteStaleIff(c, WithHost(s, mac), mac, id, true);
      CompleteStaleIff(c, Running(s, mac, id), mac, id, true);
    }
  }

  lemma BuildStaleIff(c: Config, s: State, mac: Mac, id: nat)
    requires mac in s.devices && s.devices[mac].gateway == Some(id) && id in s.gateways && mac in s.gateways[id].targets
    ensures StaleAt(Launch(c, s, mac, id, HostBuild), mac, id) <==> s.devices[mac].setId.None?
  {
  }

  lemma LaunchOnlyStale(c: Config, s: State, mac: Mac, id: nat, failure: Failure)
    requires mac in s.devices && mac !in s.queue && s.devices[mac].gateway == Some(id) && id in s.gateways
    ensures OnlyStale(s, Launch(c, s, mac, id, failure), mac, id)
  {
    LaunchEffect(c, s, mac, id, failure);
    if Gone(s, Launch(c, s, mac, id, failure), mac) {
      GoneOnlyStale(s, Launch(c, s, mac, id, failure), mac, id);
    }
  }

  ghost predicate NewlyStale(s: State, t: State, mac: Mac, id: nat)
  {
    StaleAt(t, mac, id) && !StaleAt(s, mac, id)
  }

  ghost predicate HasNew(s: State, t: State, mac: Mac)
  {
    exists id :: NewlyStale(s, t, mac, id)
  }

  lemma LeavesMeans(s: State, t: State, m: Mac, condition: bool, mac: Mac)
    requires Leaves(s, t, m, condition)
    ensures HasNew(s, t, mac) <==> m == mac && condition
  {
  }

  lemma NothingNew(s: State, t: State, mac: Mac)
    requires forall m, j :: StaleAt(t, m, j) <==> StaleAt(s, m, j)
    ensures !HasNew(s, t, mac)
  {
  }

  /** A step leaves a stale target for the one device or for nobody, as a condition says. */
  ghost predicate Leaves(s: State, t: State, mac: Mac, condition: bool)
  {
    && (condition <==> exists id :: NewlyStale(s, t, mac, id))
    && (forall m, id :: NewlyStale(s, t, m, id) ==> m == mac)
  }

  lemma JoinLeavesIff(c: Config, s: State, mac: Mac, id: nat, failure: Failure)
    requires mac in s.devices && mac !in s.queue && !s.devices[mac].host && s.devices[mac].gateway.None?
    ensures Leaves(s, Join(c, s, mac, id, failure), mac, Takes(s, id, mac) && LaunchLoses(s, mac, failure))
  {
    if Takes(s, id, mac) {
      var u := Attach(s, mac, id);
      var t := Join(c, s, mac, id, failure);
      LaunchStaleIff(c, u, mac, id, failure);
      assert forall m, j :: StaleAt(u, m, j) ==> StaleAt(s, m, j);
      assert NewlyStale(s, t, mac, id) <==> LaunchLoses(s, mac, failure);
    }
  }

  /** An activation gets as far as a gateway that takes the device. */
  ghost predicate Joins(s: State, mac: Mac, env: Env)
    requires mac in s.devices
  {
    var (d, existing) := (s.devices[mac], Existing(s, env.group));
    && (d.port.Some? ==> env.portActive)
    && (if existing == {} then s.gatewaySets != {} && env.failure != GatewayInit
        else forall id :: id in existing ==> Takes(s, id, mac))
  }

  lemma PlanJoins(s: State, mac: Mac, env: Env)
    requires mac in s.devices && Shared(s.devices) && Shared(Grouped(s, mac, env.group).devices)
    requires Existing(Grouped(s, mac, env.group), env.group) == Existing(s, env.group)
    ensures Joins(s, mac, env)
            <==> match Plan(s, mac, env)
                 case Ignored => false
                 case Failed => false
                 case OnNew(_) => true
                 case OnExisting(id) => Takes(s, id, mac)
  {
    if Plan(s, mac, env).OnExisting? {
      GroupHasOneGateway(s, env.group);
      SingleElement(Existing(s, env.group), Plan(s, mac, env).id);
    }
  }

  lemma JoinNewLeavesIff(c: Config, t: State, mac: Mac, group: Group, portSet: nat, failure: Failure)
    requires mac in t.devices && mac !in t.queue && !t.devices[mac].host && t.devices[mac].gateway.None?
    requires Below(t.gateways, t.nextGateway)
    ensures Leaves(t, Join(c, NewGateway(t, group, portSet), mac, t.nextGateway, failure), mac, LaunchLoses(t, mac, failure))
  {
    var u := NewGateway(t, group, portSet);
    JoinLeavesIff(c, u, mac, t.nextGateway, failure);
    assert forall m, j :: StaleAt(u, m, j) <==> StaleAt(t, m, j);
    assert forall r, m, j :: NewlyStale(u, r, m, j) <==> NewlyStale(t, r, m, j);
  }

  /** A change of fields that no gateway depends on makes no difference. */
  lemma LeavesFrom(s: State, t: State, r: State, mac: Mac, condition: bool)
    requires Leaves(t, r, mac, condition) && forall m, j :: StaleAt(t, m, j) <==> StaleAt(s, m, j)
    ensures Leaves(s, r, mac, condition)
  {
    assert forall m, j :: NewlyStale(t, r, m, j) <==> NewlyStale(s, r, m, j);
  }

  lemma ActivateLeavesIff(c: Config, s: State, mac: Mac, env: Env)
    requires Safe(c, s) && mac in s.devices && !s.devices[mac].host && mac !in s.queue
    ensures Leaves(s, Activate(c, s, mac, env), mac, Joins(s, mac, env) && LaunchLoses(s, mac, env.failure))
  {
    var t := Grouped(s, mac, env.group);
    RelabelKeepsSafe(c, s, mac, t.devices[mac]);
    RelabelKeepsExisting(s, mac, t.devices[mac], env.group);
    ActivateFollowsPlan(c, s, mac, env);
    PlanJoins(s, mac, env);
    assert forall m, j :: StaleAt(t, m, j) <==> StaleAt(s, m, j);
    PlanLeavesIff(c, s, t, mac, env, Plan(s, mac, env));
  }

  lemma PlanLeavesIff(c: Config, s: State, t: State, mac: Mac, env: Env, plan: Outcome)
    requires mac in s.devices && t == Grouped(s, mac, env.group)
    requires mac !in t.queue && !t.devices[mac].host && t.devices[mac].gateway.None? && Below(t.gateways, t.nextGateway)
    requires forall m, j :: StaleAt(t, m, j) <==> StaleAt(s, m, j)
    ensures match plan
            case Ignored => Leaves(s, s, mac, false)
            case Failed => Leaves(s, t.(runTests := t.runTests && !c.failMode), mac, false)
            case OnNew(n) =>
              Leaves(s, Join(c, NewGateway(t, env.group, n), mac, t.nextGateway, env.failure), mac, LaunchLoses(s, mac, env.failure))
            case OnExisting(id) =>
              Leaves(s, Join(c, t, mac, id, env.failure), mac, Takes(s, id, mac) && LaunchLoses(s, mac, env.failure))
  {
    match plan
    case Ignored =>
    case Failed =>
    case OnNew(n) =>
      JoinNewLeavesIff(c, t, mac, env.group, n, env.failure);
      LeavesFrom(s, t, Join(c, NewGateway(t, env.group, n), mac, t.nextGateway, env.failure), mac, LaunchLoses(s, mac, env.failure));
    case OnExisting(id) =>
      JoinLeavesIff(c, t, mac, id, env.failure);
      LeavesFrom(s, t, Join(c, t, mac, id, env.failure), mac, Takes(s, id, mac) && LaunchLoses(s, mac, env.failure));
  }

  /**
   * The steps that leave a stale target: a device that joins a gateway and whose host then fails to
   * initialise on a port without directed traffic, or cannot be built while the device has no set id;
   * and the end of a device whose traffic is no longer directed at its port.
   */
  ghost predicate LeavesStale(c: Config, s: State, e: Event, mac: Mac)
  {
    mac in s.devices &&
    match e
    case TriggerDevice(m, remote, env) =>
      m == mac && PickIsFree(s, env) && WillActivate(c, s, mac, remote) && Joins(s, mac, env) && LaunchLoses(s, mac, env.failure)
    case ConsiderQueue(env) =>
      && s.queue != [] && s.queue[0] == mac && PickIsFree(s, env) && HasCapacity(c, s)
      && Joins(s, mac, env) && LaunchLoses(s, mac, env.failure)
    case Finish(m, _) =>
      m == mac && s.devices[mac].host && s.devices[mac].port.Some? && s.devices[mac].port.value !in s.directed
    case _ => false
  }

  lemma TakenJoins(s: State, mac: Mac, env: Env)
    requires mac in s.devices && Existing(Taken(s, mac), env.group) == Existing(s, env.group)
    ensures Joins(Taken(s, mac), mac, env) <==> Joins(s, mac, env)
  {
    assert forall id :: Takes(Taken(s, mac), id, mac) <==> Takes(s, id, mac);
  }

  lemma TriggerLeavesIff(c: Config, s: State, m: Mac, remote: bool, env: Env)
    requires Safe(c, s) && m in s.devices && WillActivate(c, s, m, remote)
    ensures Leaves(s, Trigger(c, s, m, remote, env), m, Joins(s, m, env) && LaunchLoses(s, m, env.failure))
  {
    var t := Taken(s, m);
    RelabelKeepsSafe(c, s, m, t.devices[m]);
    RelabelKeepsExisting(s, m, t.devices[m], env.group);
    ActivateLeavesIff(c, t, m, env);
    TakenJoins(s, m, env);
    LeavesFrom(s, t, Trigger(c, s, m, remote, env), m, Joins(s, m, env) && LaunchLoses(s, m, env.failure));
  }

  lemma ConsiderLeavesIff(c: Config, s: State, env: Env)
    requires Safe(c, s) && s.queue != [] && HasCapacity(c, s)
    ensures var m := s.queue[0];
            m in s.devices && Leaves(s, Consider(c, s, env), m, Joins(s, m, env) && LaunchLoses(s, m, env.failure))
  {
    var (m, t) := (s.queue[0], s.(queue := s.queue[1..]));
    DequeueKeeps(s.devices, s.queue);
    ActivateLeavesIff(c, t, m, env);
    SubsetOfExisting(s, t, env.group);
    SubsetOfExisting(t, s, env.group);
    assert Joins(t, m, env) <==> Joins(s, m, env) by {
      assert forall id :: Takes(t, id, m) <==> Takes(s, id, m);
    }
    LeavesFrom(s, t, Consider(c, s, env), m, Joins(s, m, env) && LaunchLoses(s, m, env.failure));
  }

  lemma FinishLeavesIff(c: Config, s: State, m: Mac, failed: bool)
    requires Safe(c, s) && m in s.devices && s.devices[m].host
    ensures var port := s.devices[m].port;
            Leaves(s, Complete(c, s, m, failed), m, port.Some? && port.value !in s.directed)
  {
    var id := s.devices[m].gateway.value;
    HostedIsNotQueued(s.devices, s.queue, m);
    CompleteIsGone(c, s, m, failed);
    GoneOnlyStale(s, Complete(c, s, m, failed), m, id);
    CompleteStaleIff(c, s, m, id, failed);
    assert NewlyStale(s, Complete(c, s, m, failed), m, id) <==> StaleAt(Complete(c, s, m, failed), m, id);
  }

  /** A trigger that is ignored or queued is nothing to any gateway. */
  lemma QuietTrigger(c: Config, s: State, e: Event)
    requires Safe(c, s) && e.TriggerDevice?
    requires !(e.mac in s.devices && PickIsFree(s, e.env) && WillActivate(c, s, e.mac, e.remote))
    ensures forall m, j :: StaleAt(Step(c, s, e), m, j) <==> StaleAt(s, m, j)
  {
    if e.mac in s.devices && !s.devices[e.mac].host {
      RelabelKeepsSafe(c, s, e.mac, Taken(s, e.mac).devices[e.mac]);
    }
  }

  lemma QuietStep(s: State, t: State, mac: Mac)
    requires SameForGateways(s, t)
    ensures !HasNew(s, t, mac)
  {
  }

  /** In every safe state a step leaves a new stale target exactly in the three cases. */
  lemma NewStaleIff(c: Config, s: State, e: Event, mac: Mac)
    requires Safe(c, s)
    ensures HasNew(s, Step(c, s, e), mac) <==> LeavesStale(c, s, e, mac)
  {
    match e
    case TriggerDevice(m, remote, env) =>
      if m in s.devices && PickIsFree(s, env) && WillActivate(c, s, m, remote) {
        TriggerLeavesIff(c, s, m, remote, env);
        LeavesMeans(s, Step(c, s, e), m, Joins(s, m, env) && LaunchLoses(s, m, env.failure), mac);
      } else {
        QuietTrigger(c, s, e);
        NothingNew(s, Step(c, s, e), mac);
      }
    case ConsiderQueue(env) =>
      if PickIsFree(s, env) && s.queue != [] && HasCapacity(c, s) {
        ConsiderLeavesIff(c, s, env);
        LeavesMeans(s, Step(c, s, e), s.queue[0], Joins(s, s.queue[0], env) && LaunchLoses(s, s.queue[0], env.failure), mac);
      } else {
        NothingNew(s, Step(c, s, e), mac);
      }
    case Finish(m, failed) =>
      if m in s.devices && s.devices[m].host {
        FinishLeavesIff(c, s, m, failed);
        LeavesMeans(s, Step(c, s, e), m, s.devices[m].port.Some? && s.devices[m].port.value !in s.directed, mac);
      } else {
        NothingNew(s, Step(c, s, e), mac);
      }
    case _ =>
      QuietIsSame(c, s, e);
      QuietStep(s, Step(c, s, e), mac);
  }
}
