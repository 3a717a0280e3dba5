/**
 * What each step of the scheduler does to the rest of its state, over every run: when testing ends,
 * how many devices were attached, who is queued and who leaves the queue, which set ids are in use, and
 * what is learned about a device.
 */
module RunnerLaws {
  import opened Octets
  import opened Runner
  import opened RunnerRuns
  import opened RunnerQueue
  import opened RunnerLeaks

  // ---- activations ------------------------------------------------------------------------------

  /** The event activates the device: it is triggered, or at the head of the queue, and there is room. */
  ghost predicate Activates(c: Config, s: State, e: Event, m: Mac)
  {
    && m in s.devices && (e.TriggerDevice? || e.ConsiderQueue?) && PickIsFree(s, e.env)
    && (if e.TriggerDevice? then e.mac == m && WillActivate(c, s, m, e.remote)
        else s.queue != [] && s.queue[0] == m && HasCapacity(c, s))
  }

  /** The device's port is up, its group has no gateway, and none can be made. */
  ghost predicate NoGateway(s: State, mac: Mac, env: Env)
    requires mac in s.devices
  {
    && (s.devices[mac].port.Some? ==> env.portActive) && Existing(s, env.group) == {}
    && (s.gatewaySets == {} || env.failure == GatewayInit)
  }

  predicate LimitReached(c: Config, count: nat)
  {
    c.runLimit > 0 && count >= c.runLimit
  }

  /** What the end of a device, having failed or not, does to the wish for more tests. */
  predicate EndsTests(c: Config, count: nat, failed: bool)
  {
    c.singleShot || LimitReached(c, count) || (c.failMode && failed)
  }

  lemma FinalizeTests(c: Config, s: State, mac: Mac, failed: bool)
    requires mac in s.devices
    ensures var t := Complete(c, s, mac, failed);
            && t.runTests == (s.runTests && !EndsTests(c, s.runCount, failed)) && t.runCount == s.runCount
            && mac !in t.devices
  {
  }

  lemma LaunchTests(c: Config, s: State, mac: Mac, id: nat, failure: Failure)
    requires mac in s.devices && mac !in s.queue && s.devices[mac].gateway == Some(id) && id in s.gateways
    ensures var t := Launch(c, s, mac, id, failure);
            && t.runCount == s.runCount && (forall m :: m != mac ==> (m in t.devices <==> m in s.devices))
            && t.runTests == (s.runTests && !(mac !in t.devices && EndsTests(c, s.runCount, true)))
  {
    LaunchEffect(c, s, mac, id, failure);
    if failure != HostBuild {
      FinalizeTests(c, WithHost(s, mac), mac, true);
      FinalizeTests(c, Running(s, mac, id), mac, true);
    }
  }

  /** A step that may activate this device and nobody else. */
  ghost predicate ActivationLaw(c: Config, s: State, t: State, mac: Mac, joins: bool, noGateway: bool)
  {
    && t.runCount == s.runCount + (if joins then 1 else 0)
    && (forall m :: m != mac ==> (m in t.devices <==> m in s.devices))
    && (mac !in t.devices ==> joins)
    && t.runTests == (s.runTests && !(mac !in t.devices && EndsTests(c, t.runCount, true)) && !(c.failMode && noGateway))
  }

  lemma JoinTests(c: Config, s: State, mac: Mac, id: nat, failure: Failure)
    requires mac in s.devices && mac !in s.queue
    ensures ActivationLaw(c, s, Join(c, s, mac, id, failure), mac, Takes(s, id, mac), false)
  {
    if Takes(s, id, mac) {
      LaunchTests(c, Attach(s, mac, id), mac, id, failure);
    }
  }

  lemma PlanFindsNoGateway(s: State, mac: Mac, env: Env)
    requires mac in s.devices && Shared(s.devices)
    requires Existing(Grouped(s, mac, env.group), env.group) == Existing(s, env.group)
    ensures NoGateway(s, mac, env) <==> Plan(s, mac, env).Failed?
  {
  }

  lemma ActivateTests(c: Config, s: State, mac: Mac, env: Env)
    requires Safe(c, s) && mac in s.devices && !s.devices[mac].host && mac !in s.queue
    ensures ActivationLaw(c, s, Activate(c, s, mac, env), mac, Joins(s, mac, env), NoGateway(s, mac, env))
  {
    var t := Grouped(s, mac, env.group);
    RelabelKeepsSafe(c, s, mac, t.devices[mac]);
    RelabelKeepsExisting(s, mac, t.devices[mac], env.group);
    ActivateFollowsPlan(c, s, mac, env);
    PlanJoins(s, mac, env);
    PlanFindsNoGateway(s, mac, env);
    PlanTests(c, s, t, mac, env, Plan(s, mac, env));
  }

  lemma PlanTests(c: Config, s: State, t: State, mac: Mac, env: Env, plan: Outcome)
    requires mac in s.devices && t == Grouped(s, mac, env.group) && mac !in t.queue
    ensures match plan
            case Ignored => ActivationLaw(c, s, s, mac, false, false)
            case Failed => ActivationLaw(c, s, t.(runTests := t.runTests && !c.failMode), mac, false, true)
            case OnNew(n) =>
              ActivationLaw(c, s, Join(c, NewGateway(t, env.group, n), mac, t.nextGateway, env.failure), mac, true, false)
            case OnExisting(id) =>
              ActivationLaw(c, s, Join(c, t, mac, id, env.failure), mac, Takes(s, id, mac), false)
  {
    match plan
    case Ignored =>
    case Failed =>
    case OnNew(n) =>
      var u := NewGateway(t, env.group, n);
      JoinTests(c, u, mac, t.nextGateway, env.failure);
      assert Takes(u, t.nextGateway, mac);
    case OnExisting(id) =>
      JoinTests(c, t, mac, id, env.failure);
      assert Takes(t, id, mac) <==> Takes(s, id, mac);
  }

  lemma ActivationTests(c: Config, s: State, e: Event, m: Mac)
    requires Safe(c, s) && Activates(c, s, e, m)
    ensures ActivationLaw(c, s, Step(c, s, e), m, Joins(s, m, e.env), NoGateway(s, m, e.env))
  {
    if e.TriggerDevice? {
      var t := Taken(s, m);
      RelabelKeepsSafe(c, s, m, t.devices[m]);
      RelabelKeepsExisting(s, m, t.devices[m], e.env.group);
      ActivateTests(c, t, m, e.env);
      TakenJoins(s, m, e.env);
    } else {
      var t := s.(queue := s.queue[1..]);
      DequeueKeeps(s.devices, s.queue);
      ActivateTests(c, t, m, e.env);
      DequeuedJoins(s, e.env);
    }
  }

  lemma DequeuedJoins(s: State, env: Env)
    requires s.queue != [] && s.queue[0] in s.devices
    ensures var t := s.(queue := s.queue[1..]);
            Joins(t, s.queue[0], env) == Joins(s, s.queue[0], env) && NoGateway(t, s.queue[0], env) == NoGateway(s, s.queue[0], env)
  {
    var (m, t) := (s.queue[0], s.(queue := s.queue[1..]));
    SubsetOfExisting(s, t, env.group);
    SubsetOfExisting(t, s, env.group);
    assert forall id :: Takes(t, id, m) <==> Takes(s, id, m);
  }

  // ---- when testing ends --------------------------------------------------------------------------

  ghost predicate Ends(s: State, t: State, m: Mac)
  {
    m in s.devices && m !in t.devices
  }

  /** A device ended in the step that single shot, the run limit or fail mode makes the last. */
  ghost predicate LastOneEnds(c: Config, s: State, e: Event, t: State)
  {
    exists m :: Ends(s, t, m) && EndsTests(c, t.runCount, !(e.Finish? && !e.failed))
  }

  /** In fail mode an activation found no gateway. */
  ghost predicate FailsToPlace(c: Config, s: State, e: Event)
  {
    c.failMode && exists m :: Activates(c, s, e, m) && NoGateway(s, m, e.env)
  }

  ghost predicate TurnsOff(c: Config, s: State, e: Event)
    requires Waiting(s.devices, s.queue)
  {
    LastOneEnds(c, s, e, Step(c, s, e)) || FailsToPlace(c, s, e)
  }

  lemma OnlyOneActivates(c: Config, s: State, e: Event, m: Mac, n: Mac)
    requires Activates(c, s, e, m) && Activates(c, s, e, n)
    ensures m == n
  {
  }

  lemma ActivationTurnsOff(c: Config, s: State, e: Event, m: Mac)
    requires Safe(c, s) && Activates(c, s, e, m)
    ensures !Step(c, s, e).runTests <==> !s.runTests || TurnsOff(c, s, e)
  {
    var t := Step(c, s, e);
    ActivationTests(c, s, e, m);
    assert forall n :: Ends(s, t, n) ==> n == m;
    assert Ends(s, t, m) <==> m !in t.devices;
    assert FailsToPlace(c, s, e) <==> c.failMode && NoGateway(s, m, e.env);
    assert LastOneEnds(c, s, e, t) <==> m !in t.devices && EndsTests(c, t.runCount, true);
  }

  /** No device is activated and none ends. */
  lemma IdleStep(c: Config, s: State, e: Event)
    requires Safe(c, s) && !e.Finish? && forall m :: !Activates(c, s, e, m)
    ensures var t := Step(c, s, e);
            t.runTests == s.runTests && t.runCount == s.runCount && forall m :: m in s.devices ==> m in t.devices
  {
    match e
    case TriggerDevice(m, remote, env) =>
      assert !Activates(c, s, e, m);
      IdleTrigger(c, s, e);
    case ConsiderQueue(env) =>
      assert s.queue != [] ==> !Activates(c, s, e, s.queue[0]);
    case _ => QuietIsSame(c, s, e);
  }

  /** A trigger that activates nobody is ignored, or queues its device. */
  lemma IdleTrigger(c: Config, s: State, e: Event)
    requires Waiting(s.devices, s.queue) && e.TriggerDevice? && !Activates(c, s, e, e.mac)
    ensures var t := Step(c, s, e);
            || t == s
            || (e.mac in s.devices && t == Taken(s, e.mac).(queue := s.queue + [e.mac]))
  {
    if e.mac in s.devices && !s.devices[e.mac].host {
      assert Hosted(Taken(s, e.mac).devices) == Hosted(s.devices);
    }
  }

  lemma StepTurnsOffIff(c: Config, s: State, e: Event)
    requires Safe(c, s)
    ensures !Step(c, s, e).runTests <==> !s.runTests || TurnsOff(c, s, e)
  {
    if m :| Activates(c, s, e, m) {
      ActivationTurnsOff(c, s, e, m);
    } else if e.Finish? && e.mac in s.devices && s.devices[e.mac].host {
      FinalizeTests(c, s, e.mac, e.failed);
      assert Ends(s, Step(c, s, e), e.mac);
    } else if !e.Finish? {
      IdleStep(c, s, e);
    }
  }

  /** Some event of the run turned testing off where it happened. */
  ghost predicate EverTurnsOff(c: Config, events: seq<Event>)
  {
    events != [] &&
    var (init, e) := (events[..|events| - 1], events[|events| - 1]);
    EverTurnsOff(c, init) || TurnsOff(c, Run(c, init), e)
  }

  /**
   * Over every run, testing is off if and only if a device ended, in any way, with single shot set or the
   * run limit reached, or one failed or found no gateway in fail mode; and it never comes back on.
   */
  lemma {:induction false} TestsAreOffIff(c: Config, events: seq<Event>)
    ensures !Run(c, events).runTests <==> EverTurnsOff(c, events)
  {
    if events != [] {
      var (init, e) := (events[..|events| - 1], events[|events| - 1]);
      TestsAreOffIff(c, init);
      StepTurnsOffIff(c, Run(c, init), e);
    }
  }

  // ---- how many devices were attached ---------------------------------------------------------------

  ghost predicate AttachesOne(c: Config, s: State, e: Event)
  {
    exists m :: Activates(c, s, e, m) && Joins(s, m, e.env)
  }

  lemma StepCounts(c: Config, s: State, e: Event)
    requires Safe(c, s)
    ensures Step(c, s, e).runCount == s.runCount + if AttachesOne(c, s, e) then 1 else 0
  {
    if m :| Activates(c, s, e, m) {
      ActivationTests(c, s, e, m);
      assert AttachesOne(c, s, e) <==> Joins(s, m, e.env);
    } else if e.Finish? && e.mac in s.devices && s.devices[e.mac].host {
      FinalizeTests(c, s, e.mac, e.failed);
    } else if !e.Finish? {
      IdleStep(c, s, e);
    }
  }

  ghost function AttachedIn(c: Config, events: seq<Event>): nat
  {
    if events == [] then 0
    else
      var (init, e) := (events[..|events| - 1], events[|events| - 1]);
      AttachedIn(c, init) + if AttachesOne(c, Run(c, init), e) then 1 else 0
  }

  /** The run count is the number of devices attached to a gateway in the run. */
  lemma {:induction false} RunCountIs(c: Config, events: seq<Event>)
    ensures Run(c, events).runCount == AttachedIn(c, events)
  {
    if events != [] {
      var (init, e) := (events[..|events| - 1], events[|events| - 1]);
      RunCountIs(c, init);
      StepCounts(c, Run(c, init), e);
    }
  }
}
