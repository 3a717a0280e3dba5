/**
 * The queue of the scheduler over every run: how a step may change it, the order of those who wait,
 * and exactly when a device gets a host, which is not always its turn in the queue.
 */
module RunnerQueue {
  import opened Octets
  import opened Runner
  import opened RunnerRuns

  // ---- first in, first out among those who wait -------------------------------------------------

  ghost predicate Before(q: seq<Mac>, a: Mac, b: Mac)
  {
    exists i, j :: 0 <= i < j < |q| && q[i] == a && q[j] == b
  }

  /** The only ways the queue changes: at its end by a trigger, at its head by a turn. */
  ghost predicate QueueStep(q: seq<Mac>, r: seq<Mac>, e: Event)
  {
    || r == q
    || (e.TriggerDevice? && r == q + [e.mac])
    || (e.ConsiderQueue? && q != [] && r == q[1..])
  }

  lemma StepChangesQueue(c: Config, s: State, e: Event)
    requires Waiting(s.devices, s.queue)
    ensures QueueStep(s.queue, Step(c, s, e).queue, e)
  {
    var q := s.queue;
    match e
    case ConsiderQueue(env) => assert q != [] ==> q[0] !in q[1..];
    case Finish(mac, failed) => assert mac in s.devices && s.devices[mac].host ==> mac !in q;
    case _ =>
  }

  /** No step puts one waiting device in front of another that came before it. */
  lemma QueueKeepsOrder(q: seq<Mac>, r: seq<Mac>, e: Event, a: Mac, b: Mac)
    requires Distinct(q) && QueueStep(q, r, e)
    requires Before(q, a, b) && a in r && b in r
    ensures Before(r, a, b)
  {
    var i, j :| 0 <= i < j < |q| && q[i] == a && q[j] == b;
    if e.TriggerDevice? && r == q + [e.mac] {
      assert r[i] == a && r[j] == b;
    } else if e.ConsiderQueue? && r == q[1..] {
      assert r[j - 1] == b && (i > 0 ==> r[i - 1] == a);
    }
  }

  lemma LaterIsNotFirst(q: seq<Mac>, a: Mac, b: Mac)
    requires Distinct(q) && Before(q, a, b)
    ensures q[0] != b
  {
  }

  /** The queue at the start and after each event of a run. */
  ghost function Queues(c: Config, events: seq<Event>): (qs: seq<seq<Mac>>)
    ensures |qs| == |events| + 1 && qs[|events|] == Run(c, events).queue
  {
    (if events == [] then [] else Queues(c, events[..|events| - 1])) + [Run(c, events).queue]
  }

  ghost predicate QueueHistory(qs: seq<seq<Mac>>, events: seq<Event>)
  {
    && |qs| == |events| + 1
    && (forall k :: 0 <= k < |qs| ==> Distinct(qs[k]))
    && (forall k :: 0 <= k < |events| ==> QueueStep(qs[k], qs[k + 1], events[k]))
  }

  lemma HistorySnoc(qs: seq<seq<Mac>>, events: seq<Event>, q: seq<Mac>)
    requires events != [] && QueueHistory(qs, events[..|events| - 1]) && Distinct(q)
    requires QueueStep(qs[|events| - 1], q, events[|events| - 1])
    ensures QueueHistory(qs + [q], events)
  {
    forall k | 0 <= k < |events| ensures QueueStep((qs + [q])[k], (qs + [q])[k + 1], events[k]) {
      assert k < |events| - 1 ==> events[k] == events[..|events| - 1][k];
    }
  }

  lemma {:induction false} QueuesAreHistory(c: Config, events: seq<Event>)
    ensures QueueHistory(Queues(c, events), events)
  {
    if events != [] {
      var n := |events| - 1;
      QueuesAreHistory(c, events[..n]);
      StepChangesQueue(c, Run(c, events[..n]), events[n]);
      HistorySnoc(Queues(c, events[..n]), events, Run(c, events).queue);
    }
  }

  lemma {:induction false} OrderIsKept(qs: seq<seq<Mac>>, events: seq<Event>, from: nat, until: nat, a: Mac, b: Mac)
    requires QueueHistory(qs, events) && from <= until <= |events| && Before(qs[from], a, b)
    requires forall k :: from <= k <= until ==> a in qs[k] && b in qs[k]
    ensures Before(qs[until], a, b)
    decreases until
  {
    if from < until {
      OrderIsKept(qs, events, from, until - 1, a, b);
      QueueKeepsOrder(qs[until - 1], qs[until], events[until - 1], a, b);
    }
  }

  /**
   * First in, first out among waiting devices, over every run: a device that was queued before
   * another, and has waited since, is still in front of it, so the other is not the next to leave
   * the queue.
   */
  lemma QueueIsFifo(c: Config, events: seq<Event>, from: nat, until: nat, a: Mac, b: Mac)
    requires from <= until <= |events|
    requires Before(Queues(c, events)[from], a, b)
    requires forall k :: from <= k <= until ==> a in Queues(c, events)[k] && b in Queues(c, events)[k]
    ensures Before(Queues(c, events)[until], a, b) && Queues(c, events)[until][0] != b
  {
    QueuesAreHistory(c, events);
    OrderIsKept(Queues(c, events), events, from, until, a, b);
    LaterIsNotFirst(Queues(c, events)[until], a, b);
  }

  // ---- who gets a host --------------------------------------------------------------------------

  ghost predicate IsHosted(devices: Devices, m: Mac)
  {
    m in devices && devices[m].host
  }

  /** The gateway takes the device. */
  predicate Takes(s: State, id: nat, mac: Mac)
    requires mac in s.devices
  {
    id in s.gateways && (s.gateways[id].activated ==> s.devices[mac].external) && mac !in s.gateways[id].targets
  }

  /** No traffic is directed at the port, or it is directed for this already. */
  predicate PortIsFor(s: State, port: Option<Port>, entry: Entry)
  {
    port.Some? && port.value in s.directed ==> s.directed[port.value] == entry
  }

  /**
   * An activation gives the device a host: its port is up and has no traffic directed for something
   * else, its group's gateway takes it or there is a free set for a new one, and no call fails.
   */
  ghost predicate Starts(s: State, mac: Mac, env: Env)
    requires mac in s.devices
  {
    var (d, existing) := (s.devices[mac], Existing(s, env.group));
    && (d.port.Some? ==> env.portActive)
    && (if existing == {} then
          && s.gatewaySets != {} && env.failure == NoFailure
          && PortIsFor(s, d.port, Entry(mac, Some(env.group), ChosenSet(s, d, env.pick)))
        else
          && env.failure in {NoFailure, GatewayInit}
          && forall id :: id in existing ==>
               Takes(s, id, mac) && PortIsFor(s, d.port, Entry(mac, Some(env.group), s.gateways[id].portSet)))
  }

  lemma SubsetOfExisting(s: State, t: State, group: Group)
    requires forall m :: m in s.devices && s.devices[m].gateway.Some? ==>
               m in t.devices && t.devices[m].gateway == s.devices[m].gateway && t.devices[m].group == s.devices[m].group
    ensures Existing(s, group) <= Existing(t, group)
  {
    forall id | id in Existing(s, group) ensures id in Existing(t, group) {
      var m :| m in s.devices && s.devices[m].group == Some(group) && s.devices[m].gateway == Some(id);
      assert t.devices[m].gateway.value == id;
    }
  }

  lemma RelabelKeepsExisting(s: State, mac: Mac, d: Device, group: Group)
    requires mac in s.devices && s.devices[mac].gateway.None? && d.gateway.None?
    ensures Existing(s.(devices := s.devices[mac := d]), group) == Existing(s, group)
  {
    SubsetOfExisting(s, s.(devices := s.devices[mac := d]), group);
    SubsetOfExisting(s.(devices := s.devices[mac := d]), s, group);
  }

  lemma LaunchStarts(c: Config, s: State, mac: Mac, id: nat, failure: Failure)
    requires mac in s.devices && mac !in s.queue && s.devices[mac].gateway == Some(id) && !s.devices[mac].host
    requires id in s.gateways
    ensures IsHosted(Launch(c, s, mac, id, failure).devices, mac)
            <==> failure in {NoFailure, GatewayInit} && PortIsFor(s, s.devices[mac].port, EntryFor(s, mac, id))
    ensures forall m :: m != mac ==> (IsHosted(Launch(c, s, mac, id, failure).devices, m) <==> IsHosted(s.devices, m))
  {
    LaunchEffect(c, s, mac, id, failure);
  }

  lemma JoinStarts(c: Config, s: State, mac: Mac, id: nat, failure: Failure)
    requires mac in s.devices && mac !in s.queue && !s.devices[mac].host
    ensures IsHosted(Join(c, s, mac, id, failure).devices, mac)
            <==> && Takes(s, id, mac) && failure in {NoFailure, GatewayInit}
                 && PortIsFor(s, s.devices[mac].port, EntryFor(s, mac, id))
    ensures forall m :: m != mac ==> (IsHosted(Join(c, s, mac, id, failure).devices, m) <==> IsHosted(s.devices, m))
  {
    if Takes(s, id, mac) {
      LaunchStarts(c, Attach(s, mac, id), mac, id, failure);
    }
  }

  lemma ActivateStarts(c: Config, s: State, mac: Mac, env: Env, m: Mac)
    requires Safe(c, s) && mac in s.devices && !s.devices[mac].host && mac !in s.queue
    ensures IsHosted(Activate(c, s, mac, env).devices, m)
            <==> if m == mac then Starts(s, mac, env) else IsHosted(s.devices, m)
  {
    var t := Grouped(s, mac, env.group);
    RelabelKeepsSafe(c, s, mac, t.devices[mac]);
    RelabelKeepsExisting(s, mac, t.devices[mac], env.group);
    ActivateFollowsPlan(c, s, mac, env);
    PlanStarts(s, mac, env);
    match Plan(s, mac, env)
    case Ignored =>
    case Failed =>
    case OnNew(portSet) => JoinNewStarts(c, t, mac, env.group, portSet, env.failure, m);
    case OnExisting(id) => JoinStarts(c, t, mac, id, env.failure);
  }

  /** What starting comes down to in each way an activation can go. */
  lemma PlanStarts(s: State, mac: Mac, env: Env)
    requires mac in s.devices && Shared(s.devices) && Shared(Grouped(s, mac, env.group).devices)
    requires Existing(Grouped(s, mac, env.group), env.group) == Existing(s, env.group)
    ensures var (port, ok) := (s.devices[mac].port, env.failure in {NoFailure, GatewayInit});
            Starts(s, mac, env)
            <==> match Plan(s, mac, env)
                 case Ignored => false
                 case Failed => false
                 case OnNew(n) => ok && PortIsFor(s, port, Entry(mac, Some(env.group), n))
                 case OnExisting(id) =>
                   ok && Takes(s, id, mac) && PortIsFor(s, port, Entry(mac, Some(env.group), s.gateways[id].portSet))
  {
    if Plan(s, mac, env).OnExisting? {
      GroupHasOneGateway(s, env.group);
      SingleElement(Existing(s, env.group), Plan(s, mac, env).id);
    }
  }

  lemma JoinNewStarts(c: Config, t: State, mac: Mac, group: Group, portSet: nat, failure: Failure, m: Mac)
    requires mac in t.devices && mac !in t.queue && !t.devices[mac].host
    ensures IsHosted(Join(c, NewGateway(t, group, portSet), mac, t.nextGateway, failure).devices, m)
            <==> if m != mac then IsHosted(t.devices, m)
                 else && failure in {NoFailure, GatewayInit}
                      && PortIsFor(t, t.devices[mac].port, Entry(mac, t.devices[mac].group, portSet))
  {
    JoinStarts(c, NewGateway(t, group, portSet), mac, t.nextGateway, failure);
  }

  /** The device is triggered from outside the queue, finds capacity and starts. */
  ghost predicate StartsByTrigger(c: Config, s: State, e: Event, m: Mac)
  {
    && e.TriggerDevice? && e.mac == m && m in s.devices && PickIsFree(s, e.env)
    && WillActivate(c, s, m, e.remote) && Starts(s, m, e.env)
  }

  /** The device is at the head of the queue, finds capacity and starts. */
  ghost predicate StartsByTurn(c: Config, s: State, e: Event, m: Mac)
  {
    && e.ConsiderQueue? && s.queue != [] && s.queue[0] == m && m in s.devices && PickIsFree(s, e.env)
    && HasCapacity(c, s) && Starts(s, m, e.env)
  }

  lemma TakenStarts(s: State, mac: Mac, env: Env)
    requires mac in s.devices && Existing(Taken(s, mac), env.group) == Existing(s, env.group)
    ensures Starts(Taken(s, mac), mac, env) <==> Starts(s, mac, env)
  {
    assert forall id :: Takes(Taken(s, mac), id, mac) <==> Takes(s, id, mac);
  }

  lemma TriggerStarts(c: Config, s: State, e: Event, m: Mac)
    requires Safe(c, s) && e.TriggerDevice? && !IsHosted(s.devices, m)
    ensures IsHosted(Step(c, s, e).devices, m) <==> StartsByTrigger(c, s, e, m)
  {
    if e.mac in s.devices && PickIsFree(s, e.env) && !s.devices[e.mac].host {
      var t := Taken(s, e.mac);
      RelabelKeepsSafe(c, s, e.mac, t.devices[e.mac]);
      RelabelKeepsExisting(s, e.mac, t.devices[e.mac], e.env.group);
      if WillActivate(c, s, e.mac, e.remote) {
        ActivateStarts(c, t, e.mac, e.env, m);
        TakenStarts(s, e.mac, e.env);
      }
    }
  }

  lemma ConsiderStarts(c: Config, s: State, e: Event, m: Mac)
    requires Safe(c, s) && e.ConsiderQueue? && !IsHosted(s.devices, m)
    ensures IsHosted(Step(c, s, e).devices, m) <==> StartsByTurn(c, s, e, m)
  {
    if PickIsFree(s, e.env) && s.queue != [] && HasCapacity(c, s) {
      var t := s.(queue := s.queue[1..]);
      DequeueKeeps(s.devices, s.queue);
      ActivateStarts(c, t, s.queue[0], e.env, m);
      SubsetOfExisting(s, t, e.env.group);
      SubsetOfExisting(t, s, e.env.group);
    }
  }

  /** A device gets a host in a step exactly when it starts by its trigger or by its turn. */
  lemma HostStartsIff(c: Config, s: State, e: Event, m: Mac)
    requires Safe(c, s) && !IsHosted(s.devices, m)
    ensures IsHosted(Step(c, s, e).devices, m) <==> StartsByTrigger(c, s, e, m) || StartsByTurn(c, s, e, m)
  {
    match e
    case TriggerDevice(mac, remote, env) => TriggerStarts(c, s, e, m);
    case ConsiderQueue(env) => ConsiderStarts(c, s, e, m);
    case Finish(mac, failed) =>
      if mac in s.devices && s.devices[mac].host {
        HostedIsNotQueued(s.devices, s.queue, mac);
        CompleteIsGone(c, s, mac, failed);
      }
    case _ =>
  }

  /**
   * A device that is not ahead of a waiting one gets a host before it exactly when it is triggered
   * from outside the queue while there is capacity: triggers do not look at the queue.
   */
  lemma OvertakesIff(c: Config, s: State, e: Event, m: Mac, waiting: Mac)
    requires Safe(c, s) && waiting in s.queue && m != waiting && !IsHosted(s.devices, m) && !Before(s.queue, m, waiting)
    ensures IsHosted(Step(c, s, e).devices, m) <==> StartsByTrigger(c, s, e, m)
  {
    HostStartsIff(c, s, e, m);
    if s.queue[0] == m {
      HeadIsBefore(s.queue, waiting);
    }
  }

  lemma HeadIsBefore(q: seq<Mac>, b: Mac)
    requires b in q && q[0] != b
    ensures Before(q, q[0], b)
  {
  }
}
