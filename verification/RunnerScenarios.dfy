/**
 * Short runs from the start that show what the exact conditions leave open: a set lost without any
 * failing call, one lost before any gateway has a stale target, one that is held up and still comes
 * back, and a device that overtakes one that waits.
 */
module RunnerScenarios {
  import opened Octets
  import opened Runner
  import opened RunnerRuns
  import opened RunnerQueue
  import opened RunnerLeaks
  import opened RunnerLosses

  const ALL_SETS: set<nat> := {1, 2, 3, 4, 5, 6, 7, 8, 9}

  /** Nothing fails. */
  function Calm(group: Group, pick: nat): Env
  {
    Env(group, true, pick, NoFailure)
  }

  lemma RunOf2(c: Config, a: Event, b: Event)
    ensures Run(c, [a]) == Step(c, INITIAL, a)
    ensures Run(c, [a, b]) == Step(c, Run(c, [a]), b)
  {
    RunAppend(c, [], a);
    RunAppend(c, [a], b);
    assert [] + [a] == [a] && [a] + [b] == [a, b];
  }

  /** The first device of a group, started on a new gateway. */
  ghost function Started(s: State, mac: Mac, group: Group, portSet: nat): State
    requires mac in s.devices
  {
    var t := NewGateway(Grouped(Taken(s, mac), mac, group), group, portSet);
    Running(Attach(t, mac, s.nextGateway), mac, s.nextGateway)
  }

  lemma FirstOfGroupStarts(c: Config, s: State, mac: Mac, group: Group, pick: nat)
    requires mac in s.devices && WillActivate(c, s, mac, false) && s.gatewaySets != {}
    requires s.devices[mac].port.Some? ==> s.devices[mac].port.value !in s.directed
    requires Existing(Grouped(Taken(s, mac), mac, group), group) == {}
    ensures Trigger(c, s, mac, false, Calm(group, pick)) == Started(s, mac, group, ChosenSet(s, s.devices[mac], pick))
  {
    assert Hosted(Taken(s, mac).devices) == Hosted(s.devices);
    FirstOfGroupActivates(c, Taken(s, mac), mac, group, pick);
  }

  lemma FirstOfGroupActivates(c: Config, s: State, mac: Mac, group: Group, pick: nat)
    requires mac in s.devices && s.gatewaySets != {} && Existing(Grouped(s, mac, group), group) == {}
    requires s.devices[mac].port.Some? ==> s.devices[mac].port.value !in s.directed
    ensures var u := NewGateway(Grouped(s, mac, group), group, ChosenSet(s, s.devices[mac], pick));
            Activate(c, s, mac, Calm(group, pick)) == Running(Attach(u, mac, s.nextGateway), mac, s.nextGateway)
  {
    NewGatewayTakes(c, Grouped(s, mac, group), mac, group, ChosenSet(s, s.devices[mac], pick));
  }

  lemma NobodyThere(s: State, group: Group)
    requires forall m :: m in s.devices && s.devices[m].gateway.Some? ==> s.devices[m].group != Some(group)
    ensures Existing(s, group) == {}
  {
  }

  lemma NewGatewayTakes(c: Config, t: State, mac: Mac, group: Group, portSet: nat)
    requires mac in t.devices && (t.devices[mac].port.Some? ==> t.devices[mac].port.value !in t.directed)
    ensures var u := NewGateway(t, group, portSet);
            Join(c, u, mac, t.nextGateway, NoFailure)
            == Running(Attach(u, mac, t.nextGateway), mac, t.nextGateway)
  {
  }

  // ---- two devices on one port -------------------------------------------------------------------

  /** The runner learns on ports and has room for two hosts. */
  ghost predicate TwoAtATime(c: Config)
  {
    !c.vlanMode && (c.maxHosts.Some? ==> c.maxHosts.value > 1)
  }

  function OnPort(port: Port, setId: Option<nat>): Device
  {
    Device(Some(port), false, setId, None, None, false, false)
  }

  /** Two devices learned on one port: the second has no set id. */
  function BothLearned(a: Mac, b: Mac, port: Port): State
  {
    State(map[a := OnPort(port, Some(port)), b := OnPort(port, None)], {port}, ALL_SETS, map[], 0, [], map[], true, true, 0)
  }

  lemma LearnBoth(c: Config, a: Mac, b: Mac, port: Port)
    requires a != b && !c.vlanMode
    ensures Run(c, [SystemPort(true), Learn(a, port), Learn(b, port)]) == BothLearned(a, b, port)
  {
    var (up, first, second) := (SystemPort(true), Learn(a, port), Learn(b, port));
    RunOf2(c, up, first);
    RunAppend(c, [up, first], second);
    assert [up, first] + [second] == [up, first, second];
    assert Create(Create(INITIAL.(systemActive := true), a, Some(port)), b, Some(port)) == BothLearned(a, b, port);
  }

  /** The first device runs, and the second one of its group will be let in to the same gateway. */
  ghost predicate SecondMeetsFirst(c: Config, s: State, a: Mac, b: Mac, port: Port, group: Group)
  {
    && a != b && IsHosted(s.devices, a) && s.devices[a].port == Some(port)
    && b in s.devices && s.devices[b] == OnPort(port, None) && WillActivate(c, s, b, false)
    && Existing(Grouped(Taken(s, b), b, group), group) == {0} && Takes(s, 0, b)
    && s.devices.Keys == {a, b} && s.devices[a].gateway == Some(0) && s.devices[a].group == Some(group)
    && s.gateways.Keys == {0} && s.gateways[0].targets == {a} && s.queue == []
    && port in s.directed && s.directed[port].mac == a && Spare(port) in s.gatewaySets
  }

  /** The first device is alone, it runs on the first gateway, and no traffic is directed at its port. */
  ghost predicate AloneOnPort(s: State, a: Mac, port: Port, group: Group)
  {
    && s.devices.Keys == {a} && s.devices[a].host && s.devices[a].port == Some(port) && port !in s.directed
    && s.devices[a].gateway == Some(0) && s.devices[a].group == Some(group)
    && s.gateways.Keys == {0} && s.gateways[0].targets == {a} && s.queue == [] && Spare(port) in s.gatewaySets
  }

  /** The second one's launch finds the port directed for the first, and its cancellation undirects it. */
  lemma SecondUndirects(c: Config, s: State, a: Mac, b: Mac, port: Port, group: Group)
    requires SecondMeetsFirst(c, s, a, b, port, group) && Waiting(s.devices, s.queue)
    ensures var t := Step(c, s, TriggerDevice(b, false, Calm(group, Spare(port))));
            && AloneOnPort(t, a, port, group) && t.systemActive == s.systemActive
            && (c.failMode ==> !t.runTests)
            && (!c.failMode && !c.singleShot && c.runLimit == 0 ==> t.runTests)
  {
    var t := Grouped(Taken(s, b), b, group);
    assert Hosted(Taken(s, b).devices) == Hosted(s.devices);
    assert Step(c, s, TriggerDevice(b, false, Calm(group, Spare(port)))) == Join(c, t, b, 0, NoFailure);
    ConflictUndirects(c, Attach(t, b, 0), a, b, port);
  }

  lemma ConflictUndirects(c: Config, u: State, a: Mac, b: Mac, port: Port)
    requires a != b && u.devices.Keys == {a, b} && u.devices[b].gateway == Some(0) && b !in u.queue
    requires u.gateways.Keys == {0} && u.gateways[0].targets == {a, b}
    requires u.devices[b].port == Some(port) && port in u.directed && u.directed[port].mac == a
    ensures var t := Launch(c, u, b, 0, NoFailure);
            && t.devices == u.devices - {b} && t.devices.Keys == {a} && port !in t.directed && t.queue == u.queue
            && t.gateways.Keys == {0} && t.gateways[0].targets == {a} && t.gatewaySets == u.gatewaySets
            && t.systemActive == u.systemActive
            && t.runTests == (u.runTests && !c.failMode && !(c.runLimit > 0 && u.runCount >= c.runLimit) && !c.singleShot)
  {
    assert Conflicts(u, b, 0);
    var w := WithHost(u, b);
    CancelUndirects(w, b, port);
    assert w.gateways[0].targets - {b} == {a};
    assert w.devices - {b} == u.devices - {b};
  }

  lemma CancelUndirects(s: State, mac: Mac, port: Port)
    requires mac in s.devices && s.devices[mac].host && s.devices[mac].port == Some(port) && port in s.directed
    requires s.devices[mac].gateway == Some(0) && mac !in s.queue
    ensures Cancel(s, mac) == Detach(s.(directed := s.directed - {port}), mac, 0)
  {
    assert s.(queue := Remove(s.queue, mac)) == s;
  }

  lemma HostedOne(devices: Devices, a: Mac)
    requires a in devices && devices[a].host && forall m :: m in devices && m != a ==> !devices[m].host
    ensures Hosted(devices) == {a} && |Hosted(devices)| == 1
  {
    assert Hosted(devices) == {a};
  }

  /** The first device runs on the first gateway; the second has neither gateway nor host. */
  ghost predicate FirstHasStarted(t: State, a: Mac, b: Mac, port: Port, group: Group)
  {
    && a != b && t.devices.Keys == {a, b} && t.devices[b] == OnPort(port, None)
    && t.devices[a].host && t.devices[a].port == Some(port) && t.devices[a].gateway == Some(0) && t.devices[a].group == Some(group)
    && t.gateways.Keys == {0} && t.gateways[0].targets == {a} && !t.gateways[0].activated
    && port in t.directed && t.directed[port].mac == a && Spare(port) in t.gatewaySets
    && t.queue == [] && t.systemActive && t.runTests
  }

  lemma FirstRunningIs(a: Mac, b: Mac, port: Port, group: Group)
    requires a != b
    ensures FirstHasStarted(FirstRunning(a, b, port, group), a, b, port, group)
  {
  }

  lemma SecondIsSetUp(c: Config, t: State, a: Mac, b: Mac, port: Port, group: Group)
    requires FirstHasStarted(t, a, b, port, group) && TwoAtATime(c)
    ensures SecondMeetsFirst(c, t, a, b, port, group)
  {
    HostedOne(t.devices, a);
    OneExisting(Grouped(Taken(t, b), b, group), a, group);
  }

  lemma OneExisting(u: State, a: Mac, group: Group)
    requires a in u.devices && u.devices[a].gateway == Some(0) && u.devices[a].group == Some(group)
    requires forall m :: m in u.devices && m != a ==> u.devices[m].gateway.None?
    ensures Existing(u, group) == {0}
  {
    assert u.devices[a].gateway.value == 0;
    assert forall id :: id in Existing(u, group) ==> id == 0;
  }

  /** Two devices are learned on one port and triggered, one after the other; nothing fails. */
  function TwoOnOnePort(a: Mac, b: Mac, port: Port, group: Group): seq<Event>
  {
    [SystemPort(true), Learn(a, port), Learn(b, port)]
    + [TriggerDevice(a, false, Calm(group, 1))] + [TriggerDevice(b, false, Calm(group, Spare(port)))]
  }

  lemma FirstIsAlone(c: Config, a: Mac, b: Mac, port: Port, group: Group)
    requires a != b && TwoAtATime(c)
    ensures var s := Run(c, TwoOnOnePort(a, b, port, group));
            && AloneOnPort(s, a, port, group) && s.systemActive && (c.failMode ==> !s.runTests)
            && (!c.failMode && !c.singleShot && c.runLimit == 0 ==> s.runTests)
  {
    var es := [SystemPort(true), Learn(a, port), Learn(b, port)];
    FirstRuns(c, a, b, port, group);
    RunAppend(c, es + [TriggerDevice(a, false, Calm(group, 1))], TriggerDevice(b, false, Calm(group, Spare(port))));
    FirstRunningIs(a, b, port, group);
    SecondIsSetUp(c, FirstRunning(a, b, port, group), a, b, port, group);
    SecondUndirects(c, FirstRunning(a, b, port, group), a, b, port, group);
  }

  /** The end of the first device then leaves its gateway with a stale target, and costs its set. */
  lemma LossWithoutFailure(c: Config, a: Mac, b: Mac, port: Port, group: Group)
    requires a != b && TwoAtATime(c)
    ensures LeavesStale(c, Run(c, TwoOnOnePort(a, b, port, group)), Finish(a, false), a)
  {
    FirstIsAlone(c, a, b, port, group);
  }

  lemma AloneIsHeld(s: State, a: Mac, port: Port, group: Group)
    requires AloneOnPort(s, a, port, group)
    ensures Held(s, 0, s.gateways[0].portSet) && forall mac :: !HasStale(s, mac)
  {
    assert a in s.gateways[0].targets && !CanLeave(s, a, 0);
    forall mac, id ensures !StaleAt(s, mac, id) {
      assert PointsAt(s.devices, a, 0);
    }
  }

  /** When a failure ends the run, that set is lost before any gateway has a stale target. */
  lemma LossBeforeStale(c: Config, a: Mac, b: Mac, port: Port, group: Group) returns (portSet: nat)
    requires a != b && TwoAtATime(c) && c.failMode
    ensures Lost(c, TwoOnOnePort(a, b, port, group), portSet)
    ensures forall mac :: !HasStale(Run(c, TwoOnOnePort(a, b, port, group)), mac)
  {
    FirstIsAlone(c, a, b, port, group);
    var s := Run(c, TwoOnOnePort(a, b, port, group));
    AloneIsHeld(s, a, port, group);
    portSet := s.gateways[0].portSet;
    assert Held(s, 0, portSet);
    HeldIsLost(c, TwoOnOnePort(a, b, port, group), portSet);
  }

  lemma LostBefore(c: Config, events: seq<Event>, e: Event, portSet: nat)
    requires Lost(c, events, portSet)
    ensures Lost(c, events + [e], portSet)
  {
    forall more ensures portSet !in Run(c, (events + [e]) + more).gatewaySets {
      Assoc(events, [e], more);
      assert portSet !in Run(c, events + ([e] + more)).gatewaySets;
    }
  }

  /** A newcomer has been learned on the port; the run goes on. */
  ghost predicate NewcomerIsThere(t: State, a: Mac, b: Mac, port: Port, group: Group)
  {
    && a != b && t.devices.Keys == {a, b} && t.devices[a].host && !t.devices[b].host && t.devices[b].gateway.None?
    && t.devices[a].port == Some(port) && t.devices[b].port == Some(port) && port !in t.directed
    && t.devices[a].gateway == Some(0) && t.devices[a].group == Some(group) && !t.devices[b].waitRemote
    && t.gateways.Keys == {0} && t.gateways[0].targets == {a} && t.nextGateway > 0
    && t.queue == [] && Spare(port) in t.gatewaySets && t.systemActive && t.runTests
  }

  lemma NewcomerIsLearned(s: State, a: Mac, b: Mac, port: Port, group: Group)
    requires a != b && AloneOnPort(s, a, port, group) && s.systemActive && s.runTests && s.nextGateway > 0
    ensures NewcomerIsThere(Create(s, b, Some(port)), a, b, port, group)
    ensures Create(s, b, Some(port)).gateways == s.gateways
  {
  }

  /** The first device can leave its gateway again, and is the only one on it. */
  ghost predicate FirstCanLeave(u: State, a: Mac, portSet: nat)
  {
    0 in u.gateways && u.gateways[0].targets == {a} && u.gateways[0].portSet == portSet && CanLeave(u, a, 0)
  }

  /** The newcomer starts in a group of its own, and has traffic directed at the port again. */
  lemma NewcomerRedirects(c: Config, t: State, a: Mac, b: Mac, port: Port, group: Group, other: Group)
    requires NewcomerIsThere(t, a, b, port, group) && group != other && TwoAtATime(c) && Waiting(t.devices, t.queue)
    ensures FirstCanLeave(Step(c, t, TriggerDevice(b, false, Calm(other, Spare(port)))), a, t.gateways[0].portSet)
  {
    HostedOne(t.devices, a);
    NobodyThere(Grouped(Taken(t, b), b, other), other);
    FirstOfGroupStarts(c, t, b, other, Spare(port));
    StartedBeside(t, a, b, other, ChosenSet(t, t.devices[b], Spare(port)));
  }

  lemma StartedBeside(t: State, a: Mac, b: Mac, group: Group, portSet: nat)
    requires a in t.devices && b in t.devices && a != b && t.gateways.Keys == {0} && t.nextGateway > 0
    requires t.gateways[0].targets == {a} && t.devices[a].gateway == Some(0)
    requires t.devices[a].port.Some? && t.devices[b].port == t.devices[a].port
    ensures FirstCanLeave(Started(t, b, group, portSet), a, t.gateways[0].portSet)
  {
  }

  /** While the run goes on, a set that is held up but not stale can still come back. */
  lemma HeldUpComesBack(c: Config, a: Mac, b: Mac, d: Mac, port: Port, group: Group, other: Group) returns (portSet: nat)
    requires a != b && a != d && b != d && group != other && TwoAtATime(c) && !c.failMode && !c.singleShot && c.runLimit == 0
    ensures HeldUp(Run(c, TwoOnOnePort(a, b, port, group)), portSet)
    ensures !Lost(c, TwoOnOnePort(a, b, port, group), portSet)
  {
    var es := TwoOnOnePort(a, b, port, group);
    FirstIsAlone(c, a, b, port, group);
    var s := Run(c, es);
    AloneIsHeld(s, a, port, group);
    portSet := s.gateways[0].portSet;
    assert Held(s, 0, portSet);
    NewcomerBringsItBack(c, es, a, d, port, group, other);
  }

  lemma NewcomerBringsItBack(c: Config, es: seq<Event>, a: Mac, b: Mac, port: Port, group: Group, other: Group)
    requires a != b && group != other && TwoAtATime(c)
    requires var s := Run(c, es); AloneOnPort(s, a, port, group) && s.systemActive && s.runTests
    ensures !Lost(c, es, Run(c, es).gateways[0].portSet)
  {
    var (learn, start) := (Learn(b, port), TriggerDevice(b, false, Calm(other, Spare(port))));
    var portSet := Run(c, es).gateways[0].portSet;
    NewcomerStarts(c, es, a, b, port, group, other);
    FirstComesBack(c, es + [learn] + [start], a, portSet);
    if Lost(c, es, portSet) {
      LostBefore(c, es, learn, portSet);
      LostBefore(c, es + [learn], start, portSet);
    }
  }

  lemma NewcomerStarts(c: Config, es: seq<Event>, a: Mac, b: Mac, port: Port, group: Group, other: Group)
    requires a != b && group != other && TwoAtATime(c)
    requires var s := Run(c, es); AloneOnPort(s, a, port, group) && s.systemActive && s.runTests
    ensures FirstCanLeave(Run(c, es + [Learn(b, port)] + [TriggerDevice(b, false, Calm(other, Spare(port)))]),
                          a, Run(c, es).gateways[0].portSet)
  {
    RunAppend(c, es, Learn(b, port));
    NewcomerIsLearned(Run(c, es), a, b, port, group);
    RunAppend(c, es + [Learn(b, port)], TriggerDevice(b, false, Calm(other, Spare(port))));
    NewcomerRedirects(c, Run(c, es + [Learn(b, port)]), a, b, port, group, other);
  }

  lemma FirstComesBack(c: Config, events: seq<Event>, a: Mac, portSet: nat)
    requires FirstCanLeave(Run(c, events), a, portSet)
    ensures !Lost(c, events, portSet)
  {
    LoneTargetIsClean(Run(c, events), a, 0);
    var more := CanComeBack(c, events, 0);
  }

  /** A set that is free when the first device has its own. */
  function Spare(port: Port): nat
  {
    if 1 < port <= MAX_GATEWAYS then 1 else 2
  }

  /** The state with the first device running. */
  ghost function FirstRunning(a: Mac, b: Mac, port: Port, group: Group): State
    requires a != b
  {
    var s := BothLearned(a, b, port);
    Started(s, a, group, ChosenSet(s, s.devices[a], 1))
  }

  lemma FirstRuns(c: Config, a: Mac, b: Mac, port: Port, group: Group)
    requires a != b && TwoAtATime(c)
    ensures Run(c, [SystemPort(true), Learn(a, port), Learn(b, port)] + [TriggerDevice(a, false, Calm(group, 1))])
            == FirstRunning(a, b, port, group)
  {
    var s := BothLearned(a, b, port);
    LearnBoth(c, a, b, port);
    RunAppend(c, [SystemPort(true), Learn(a, port), Learn(b, port)], TriggerDevice(a, false, Calm(group, 1)));
    assert Hosted(s.devices) == {};
    NobodyThere(Grouped(Taken(s, a), a, group), group);
    FirstOfGroupStarts(c, s, a, group, 1);
  }

  // ---- overtaking --------------------------------------------------------------------------------

  function ThreeLearned(a: Mac, b: Mac, d: Mac): State
  {
    State(map[a := OnPort(1, Some(1)), b := OnPort(2, Some(2)), d := OnPort(3, Some(3))], {1, 2, 3},
          ALL_SETS, map[], 0, [], map[], true, true, 0)
  }

  /** Some run ends in this state. */
  ghost predicate Reachable(c: Config, s: State)
  {
    exists events :: Run(c, events) == s
  }

  lemma Reach(c: Config, s: State, e: Event, t: State)
    requires Reachable(c, s) && Waiting(s.devices, s.queue) && Step(c, s, e) == t
    ensures Reachable(c, t) && Waiting(t.devices, t.queue)
  {
    var events :| Run(c, events) == s;
    RunAppend(c, events, e);
    assert Run(c, events + [e]) == t;
  }

  lemma OneIsLearned(c: Config, a: Mac)
    requires !c.vlanMode
    ensures var s := Create(INITIAL.(systemActive := true), a, Some(1));
            Reachable(c, s) && Waiting(s.devices, s.queue)
  {
    var up := INITIAL.(systemActive := true);
    assert Run(c, []) == INITIAL;
    Reach(c, INITIAL, SystemPort(true), up);
    Reach(c, up, Learn(a, 1), Create(up, a, Some(1)));
  }

  lemma OtherIsLearned(c: Config, s: State, m: Mac, port: Port)
    requires Reachable(c, s) && Waiting(s.devices, s.queue) && !c.vlanMode
    ensures Reachable(c, Create(s, m, Some(port))) && Waiting(Create(s, m, Some(port)).devices, Create(s, m, Some(port)).queue)
  {
    Reach(c, s, Learn(m, port), Create(s, m, Some(port)));
  }

  lemma CreateThree(a: Mac, b: Mac, d: Mac)
    requires a != b && b != d && a != d
    ensures Create(Create(Create(INITIAL.(systemActive := true), a, Some(1)), b, Some(2)), d, Some(3)) == ThreeLearned(a, b, d)
  {
    var s := Create(Create(INITIAL.(systemActive := true), a, Some(1)), b, Some(2));
    assert s.setIds == {1, 2};
    assert Create(s, d, Some(3)).setIds == {1, 2, 3};
    assert Create(s, d, Some(3)).devices == ThreeLearned(a, b, d).devices;
  }

  lemma ThreeAreLearned(c: Config, a: Mac, b: Mac, d: Mac)
    requires a != b && b != d && a != d && !c.vlanMode
    ensures Reachable(c, ThreeLearned(a, b, d)) && Waiting(ThreeLearned(a, b, d).devices, ThreeLearned(a, b, d).queue)
  {
    var s := Create(INITIAL.(systemActive := true), a, Some(1));
    OneIsLearned(c, a);
    OtherIsLearned(c, s, b, 2);
    OtherIsLearned(c, Create(s, b, Some(2)), d, 3);
    CreateThree(a, b, d);
  }

  /** One host at a time, and nothing that ends the run. */
  ghost predicate OneAtATime(c: Config)
  {
    !c.vlanMode && c.maxHosts == Some(1) && !c.singleShot && c.runLimit == 0
  }

  /** The first of three devices runs, the others have no host and no gateway. */
  ghost predicate OneRuns(s: State, a: Mac, b: Mac, d: Mac)
  {
    && a != b && b != d && a != d && s.devices.Keys == {a, b, d}
    && s.devices[a].host && s.devices[a].gateway == Some(0) && s.devices[a].port == Some(1) && !s.devices[a].waitRemote
    && s.devices[b] == OnPort(2, Some(2)) && s.devices[d] == OnPort(3, Some(3))
    && s.gatewaySets == ALL_SETS - {1} && 0 in s.gateways && s.gateways[0].portSet == 1 && s.gateways[0].targets == {a}
    && s.directed.Keys == {1} && s.systemActive && s.runTests
  }

  lemma FirstRunsAlone(a: Mac, b: Mac, d: Mac, group: Group)
    requires a != b && b != d && a != d
    ensures OneRuns(Started(ThreeLearned(a, b, d), a, group, 1), a, b, d)
    ensures Started(ThreeLearned(a, b, d), a, group, 1).queue == []
  {
  }

  lemma SecondWaits(c: Config, s: State, a: Mac, b: Mac, d: Mac, group: Group)
    requires OneAtATime(c) && OneRuns(s, a, b, d) && s.queue == []
    ensures Step(c, s, TriggerDevice(b, false, Calm(group, 2))) == s.(queue := [b])
  {
    HostedOne(s.devices, a);
    assert s.devices[b := s.devices[b].(waitRemote := false)] == s.devices;
    assert [] + [b] == [b];
  }

  /** The first has ended: the second waits, there is capacity, and the third has not been triggered. */
  ghost predicate SecondStillWaits(s: State, b: Mac, d: Mac)
  {
    && b != d && s.devices.Keys == {b, d} && s.devices[b] == OnPort(2, Some(2)) && s.devices[d] == OnPort(3, Some(3))
    && s.queue == [b] && s.gatewaySets == ALL_SETS && s.directed.Keys == {} && s.systemActive && s.runTests
  }

  lemma FirstEnds(c: Config, s: State, a: Mac, b: Mac, d: Mac)
    requires OneAtATime(c) && OneRuns(s, a, b, d) && s.queue == [b] && Waiting(s.devices, s.queue)
    ensures SecondStillWaits(Step(c, s, Finish(a, false)), b, d)
  {
    var t := s.(directed := s.directed - {1});
    assert s.gateways[0].targets - {a} == {};
    assert Cancel(s, a) == Detach(t, a, 0);
    assert Detach(t, a, 0).gatewaySets == ALL_SETS;
  }

  lemma ThirdStarts(c: Config, s: State, b: Mac, d: Mac, group: Group)
    requires OneAtATime(c) && SecondStillWaits(s, b, d)
    ensures StartsByTrigger(c, s, TriggerDevice(d, false, Calm(group, 1)), d)
  {
    assert Hosted(s.devices) == {};
    assert Existing(s, group) == {};
  }

  /**
   * With one host at a time: the first device runs, the second is queued, the first ends, and then
   * the third is triggered and gets the host while the second still waits.
   */
  lemma OvertakingHappens(c: Config, a: Mac, b: Mac, d: Mac, group: Group) returns (s: State)
    requires OneAtATime(c) && a != b && b != d && a != d
    ensures Reachable(c, s) && s.queue == [b] && !IsHosted(s.devices, d)
    ensures StartsByTrigger(c, s, TriggerDevice(d, false, Calm(group, 1)), d)
  {
    s := FirstOfThree(c, a, b, d, group);
    s := SecondOfThree(c, s, a, b, d, group);
    s := FirstIsOver(c, s, a, b, d);
    ThirdStarts(c, s, b, d, group);
  }

  lemma FirstOfThree(c: Config, a: Mac, b: Mac, d: Mac, group: Group) returns (t: State)
    requires OneAtATime(c) && a != b && b != d && a != d
    ensures Reachable(c, t) && Waiting(t.devices, t.queue) && OneRuns(t, a, b, d) && t.queue == []
  {
    var s := ThreeLearned(a, b, d);
    ThreeAreLearned(c, a, b, d);
    t := Started(s, a, group, 1);
    FirstOfThreeStarts(c, a, b, d, group);
    FirstRunsAlone(a, b, d, group);
    Reach(c, s, TriggerDevice(a, false, Calm(group, 1)), t);
  }

  lemma FirstOfThreeStarts(c: Config, a: Mac, b: Mac, d: Mac, group: Group)
    requires OneAtATime(c) && a != b && b != d && a != d
    requires Waiting(ThreeLearned(a, b, d).devices, ThreeLearned(a, b, d).queue)
    ensures Step(c, ThreeLearned(a, b, d), TriggerDevice(a, false, Calm(group, 1))) == Started(ThreeLearned(a, b, d), a, group, 1)
  {
    assert Hosted(ThreeLearned(a, b, d).devices) == {};
    NobodyThere(Grouped(Taken(ThreeLearned(a, b, d), a), a, group), group);
    FirstOfGroupStarts(c, ThreeLearned(a, b, d), a, group, 1);
  }

  lemma SecondOfThree(c: Config, s: State, a: Mac, b: Mac, d: Mac, group: Group) returns (t: State)
    requires OneAtATime(c) && Reachable(c, s) && Waiting(s.devices, s.queue) && OneRuns(s, a, b, d) && s.queue == []
    ensures Reachable(c, t) && Waiting(t.devices, t.queue) && OneRuns(t, a, b, d) && t.queue == [b]
  {
    t := s.(queue := [b]);
    SecondWaits(c, s, a, b, d, group);
    Reach(c, s, TriggerDevice(b, false, Calm(group, 2)), t);
  }

  lemma FirstIsOver(c: Config, s: State, a: Mac, b: Mac, d: Mac) returns (t: State)
    requires OneAtATime(c) && Reachable(c, s) && Waiting(s.devices, s.queue) && OneRuns(s, a, b, d) && s.queue == [b]
    ensures Reachable(c, t) && SecondStillWaits(t, b, d)
  {
    t := Step(c, s, Finish(a, false));
    FirstEnds(c, s, a, b, d);
    Reach(c, s, Finish(a, false), t);
  }
}
