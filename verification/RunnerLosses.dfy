/**
 * The gateway sets a run loses for good. A stale target costs its gateway's set; a gateway all of whose
 * devices can leave cleanly gives its set back; and once no more devices are started these two, and
 * the devices that cannot leave cleanly, decide exactly.
 */
module RunnerLosses {
  import opened Octets
  import opened Runner
  import opened RunnerRuns
  import opened RunnerLeaks

  // ---- the events of a run that leave a stale target ----------------------------------------------

  ghost predicate HasStale(s: State, mac: Mac)
  {
    exists id :: StaleAt(s, mac, id)
  }

  /** Some event of the run leaves a stale target of this name where it happens. */
  ghost predicate EverLeaves(c: Config, events: seq<Event>, mac: Mac)
  {
    events != [] &&
    var (init, e) := (events[..|events| - 1], events[|events| - 1]);
    EverLeaves(c, init, mac) || LeavesStale(c, Run(c, init), e, mac)
  }

  lemma StepHasStaleIff(c: Config, s: State, e: Event, mac: Mac)
    requires Safe(c, s)
    ensures HasStale(Step(c, s, e), mac) <==> HasStale(s, mac) || LeavesStale(c, s, e, mac)
  {
    NewStaleIff(c, s, e, mac);
    if id :| StaleAt(s, mac, id) {
      StepKeepsStale(c, s, e, mac, id, s.gateways[id].portSet);
      assert StaleAt(Step(c, s, e), mac, id);
    } else if id :| StaleAt(Step(c, s, e), mac, id) {
      assert NewlyStale(s, Step(c, s, e), mac, id);
    }
  }

  /** After a run a gateway holds a stale target exactly when some event of the run left one. */
  lemma {:induction false} RunHasStaleIff(c: Config, events: seq<Event>, mac: Mac)
    ensures HasStale(Run(c, events), mac) <==> EverLeaves(c, events, mac)
  {
    if events != [] {
      var (init, e) := (events[..|events| - 1], events[|events| - 1]);
      RunHasStaleIff(c, init, mac);
      StepHasStaleIff(c, Run(c, init), e, mac);
    }
  }

  /** Every such event, of every run, costs one of the nine sets for good. */
  lemma LeakedSetIsLost(c: Config, events: seq<Event>, e: Event, mac: Mac) returns (portSet: nat)
    requires LeavesStale(c, Run(c, events), e, mac)
    ensures 1 <= portSet <= MAX_GATEWAYS && Lost(c, events + [e], portSet)
  {
    RunAppend(c, events, e);
    StepHasStaleIff(c, Run(c, events), e, mac);
    var id :| StaleAt(Run(c, events + [e]), mac, id);
    portSet := Run(c, events + [e]).gateways[id].portSet;
    StaleIsLost(c, events + [e], mac, id, portSet);
    LiveSetIsNumbered(Run(c, events + [e]), id);
  }

  lemma LiveSetIsNumbered(s: State, id: nat)
    requires PoolSafe(s) && id in s.gateways
    ensures 1 <= s.gateways[id].portSet <= MAX_GATEWAYS && s.gateways[id].portSet !in s.gatewaySets
  {
  }

  /** The set is in the pool after no continuation of the run. */
  ghost predicate Lost(c: Config, events: seq<Event>, portSet: nat)
  {
    forall more :: portSet !in Run(c, events + more).gatewaySets
  }

  lemma StaleIsLost(c: Config, events: seq<Event>, mac: Mac, id: nat, portSet: nat)
    requires Stale(Run(c, events), mac, id, portSet)
    ensures Lost(c, events, portSet)
  {
    forall more ensures portSet !in Run(c, events + more).gatewaySets {
      StaleForEver(c, events, more, mac, id, portSet);
    }
  }

  // ---- sets that come back --------------------------------------------------------------------------

  /** The device answers for the gateway, and its end will undirect its port without an exception. */
  ghost predicate CanLeave(s: State, m: Mac, id: nat)
  {
    PointsAt(s.devices, m, id) && (s.devices[m].port.Some? ==> s.devices[m].port.value in s.directed)
  }

  ghost predicate OnePort(devices: Devices, m: Mac, n: Mac)
  {
    m in devices && n in devices && devices[m].port.Some? && devices[m].port == devices[n].port
  }

  /** All targets of the gateway can leave, and none takes the traffic of another's port with it. */
  ghost predicate Clean(s: State, id: nat)
    requires id in s.gateways
  {
    && (forall m :: m in s.gateways[id].targets ==> CanLeave(s, m, id))
    && (forall m, n :: m in s.gateways[id].targets && n in s.gateways[id].targets && m != n ==> !OnePort(s.devices, m, n))
  }

  /** What is left of the table of directed ports. */
  ghost function Undirected(s: State, m: Mac): map<Port, Entry>
    requires m in s.devices
  {
    if s.devices[m].port.Some? then s.directed - {s.devices[m].port.value} else s.directed
  }

  lemma CleanFinish(c: Config, s: State, m: Mac, id: nat, failed: bool)
    requires CanLeave(s, m, id) && s.devices[m].host && m !in s.queue
    ensures var t := Complete(c, s, m, failed);
            t.devices == s.devices - {m} && t.queue == s.queue && LeftPool(s, t, m, id) && t.directed == Undirected(s, m)
  {
    DetachFromSamePool(s, s.(directed := Undirected(s, m)), m, id);
    assert s.(queue := Remove(s.queue, m)) == s;
  }

  lemma OneFewer(s: State, t: State, m: Mac, id: nat)
    requires id in s.gateways && Clean(s, id) && m in s.gateways[id].targets
    requires t.devices == s.devices - {m} && LeftPool(s, t, m, id) && t.directed == Undirected(s, m)
    ensures if s.gateways[id].targets == {m} then s.gateways[id].portSet in t.gatewaySets
            else id in t.gateways && Clean(t, id) && t.gateways[id].portSet == s.gateways[id].portSet
                 && t.gateways[id].targets == s.gateways[id].targets - {m}
  {
    if s.gateways[id].targets == {m} {
      assert s.gateways[id].targets - {m} == {};
    } else {
      forall n | n in s.gateways[id].targets && n != m ensures CanLeave(t, n, id) {
        assert CanLeave(s, n, id) && CanLeave(s, m, id) && !OnePort(s.devices, m, n);
      }
      forall n, o | n in s.gateways[id].targets && o in s.gateways[id].targets && n != o && n != m && o != m
        ensures !OnePort(t.devices, n, o)
      {
        assert !OnePort(s.devices, n, o);
      }
    }
  }

  ghost predicate OnlyFinishes(events: seq<Event>)
  {
    forall i :: 0 <= i < |events| ==> events[i].Finish?
  }

  /** A clean gateway gives its set back when its devices end, and nothing else needs to happen. */
  lemma {:induction false} CanComeBack(c: Config, events: seq<Event>, id: nat) returns (more: seq<Event>)
    requires id in Run(c, events).gateways && Clean(Run(c, events), id)
    ensures OnlyFinishes(more) && Run(c, events).gateways[id].portSet in Run(c, events + more).gatewaySets
    decreases |Run(c, events).gateways[id].targets|
  {
    var s := Run(c, events);
    var m :| m in s.gateways[id].targets;
    assert CanLeave(s, m, id);
    FinishOne(c, events, m, id);
    OneFewer(s, Run(c, events + [Finish(m, false)]), m, id);
    if s.gateways[id].targets == {m} {
      more := [Finish(m, false)];
    } else {
      var rest := CanComeBack(c, events + [Finish(m, false)], id);
      more := [Finish(m, false)] + rest;
      Assoc(events, [Finish(m, false)], rest);
    }
  }

  lemma FinishOne(c: Config, events: seq<Event>, m: Mac, id: nat)
    requires CanLeave(Run(c, events), m, id)
    ensures var (s, t) := (Run(c, events), Run(c, events + [Finish(m, false)]));
            t.devices == s.devices - {m} && LeftPool(s, t, m, id) && t.directed == Undirected(s, m)
  {
    RunAppend(c, events, Finish(m, false));
    FinishStep(c, Run(c, events), m, id);
  }

  lemma FinishStep(c: Config, s: State, m: Mac, id: nat)
    requires Waiting(s.devices, s.queue) && HostIffGateway(s.devices) && CanLeave(s, m, id)
    ensures var t := Step(c, s, Finish(m, false));
            t.devices == s.devices - {m} && LeftPool(s, t, m, id) && t.directed == Undirected(s, m)
  {
    HostedIsNotQueued(s.devices, s.queue, m);
    CleanFinish(c, s, m, id, false);
  }

  /** The set belongs to a live gateway that is not clean. */
  ghost predicate Held(s: State, id: nat, portSet: nat)
  {
    id in s.gateways && s.gateways[id].portSet == portSet && !Clean(s, id)
  }

  ghost predicate HeldUp(s: State, portSet: nat)
  {
    exists id :: Held(s, id, portSet)
  }

  /** After any run, a set that is not held up can come back. */
  lemma LostIsHeldUp(c: Config, events: seq<Event>, portSet: nat)
    requires 1 <= portSet <= MAX_GATEWAYS && !HeldUp(Run(c, events), portSet)
    ensures !Lost(c, events, portSet)
  {
    if portSet in Run(c, events).gatewaySets {
      Units(events);
      assert portSet in Run(c, events + []).gatewaySets;
    } else {
      var id := UserOf(Run(c, events), portSet);
      var more := CanComeBack(c, events, id);
    }
  }

  lemma UserOf(s: State, portSet: nat) returns (id: nat)
    requires Partition(s.gatewaySets, s.gateways) && 1 <= portSet <= MAX_GATEWAYS && portSet !in s.gatewaySets
    requires !HeldUp(s, portSet)
    ensures id in s.gateways && s.gateways[id].portSet == portSet && Clean(s, id)
  {
    assert Uses(s.gateways, portSet);
    id :| id in s.gateways && s.gateways[id].portSet == portSet;
    assert !Held(s, id, portSet);
  }

  // ---- when no more devices are started -------------------------------------------------------------

  /** No test run is wanted any more and nobody waits: no device will get a host. */
  ghost predicate Ending(s: State)
  {
    !s.runTests && s.queue == []
  }

  lemma FinishKeepsHeld(c: Config, s: State, m: Mac, failed: bool, id: nat, portSet: nat)
    requires Safe(c, s) && Held(s, id, portSet) && m in s.devices && s.devices[m].host
    ensures Held(Complete(c, s, m, failed), id, portSet)
  {
    var (t, j) := (Complete(c, s, m, failed), s.devices[m].gateway.value);
    HostedIsNotQueued(s.devices, s.queue, m);
    if CanLeave(s, m, j) {
      CleanFinish(c, s, m, j, failed);
      if j == id {
        LeavingKeepsHeld(s, t, m, id, portSet);
      } else {
        OtherLeavingKeepsHeld(s, t, m, j, id, portSet);
      }
    } else {
      StuckFinish(c, s, m, failed);
      StaleKeepsHeld(s, t, m, id, portSet);
    }
  }

  lemma StuckFinish(c: Config, s: State, m: Mac, failed: bool)
    requires m in s.devices && m !in s.queue && s.devices[m].host && s.devices[m].port.Some?
    requires s.devices[m].port.value !in s.directed
    ensures var t := Complete(c, s, m, failed);
            t.devices == s.devices - {m} && SamePool(s, t) && t.directed == s.directed
  {
  }

  lemma LoneTargetIsClean(s: State, m: Mac, id: nat)
    requires id in s.gateways && s.gateways[id].targets - {m} == {} && CanLeave(s, m, id)
    ensures Clean(s, id)
  {
    forall n | n in s.gateways[id].targets ensures n == m {
      assert n !in s.gateways[id].targets - {m};
    }
  }

  /** If all the others could leave cleanly now, the first could have led the way. */
  lemma LeavingKeepsHeld(s: State, t: State, m: Mac, id: nat, portSet: nat)
    requires Held(s, id, portSet) && CanLeave(s, m, id) && m in s.gateways[id].targets
    requires t.devices == s.devices - {m} && LeftPool(s, t, m, id) && t.directed == Undirected(s, m)
    ensures Held(t, id, portSet)
  {
    if s.gateways[id].targets - {m} == {} {
      LoneTargetIsClean(s, m, id);
    } else if Clean(t, id) {
      LeaverWasClean(s, t, m, id);
    }
  }

  lemma LeaverWasClean(s: State, t: State, m: Mac, id: nat)
    requires id in s.gateways && CanLeave(s, m, id) && id in t.gateways && t.gateways[id].targets == s.gateways[id].targets - {m}
    requires t.devices == s.devices - {m} && t.directed == Undirected(s, m) && Clean(t, id)
    ensures Clean(s, id)
  {
    forall n | n in s.gateways[id].targets ensures CanLeave(s, n, id) {
      assert n != m ==> CanLeave(t, n, id);
    }
    forall n, o | n in s.gateways[id].targets && o in s.gateways[id].targets && n != o ensures !OnePort(s.devices, n, o) {
      assert n != m ==> CanLeave(t, n, id);
      assert o != m ==> CanLeave(t, o, id);
      assert n != m && o != m ==> !OnePort(t.devices, n, o);
    }
  }

  lemma OtherLeavingKeepsHeld(s: State, t: State, m: Mac, j: nat, id: nat, portSet: nat)
    requires Held(s, id, portSet) && CanLeave(s, m, j) && j != id
    requires t.devices == s.devices - {m} && LeftPool(s, t, m, j) && t.directed == Undirected(s, m)
    ensures Held(t, id, portSet)
  {
    if Clean(t, id) {
      FewerKeepsClean(s, t, m, id);
    }
  }

  lemma StaleKeepsHeld(s: State, t: State, m: Mac, id: nat, portSet: nat)
    requires Held(s, id, portSet) && t.devices == s.devices - {m} && SamePool(s, t) && t.directed == s.directed
    ensures Held(t, id, portSet)
  {
    if Clean(t, id) {
      FewerKeepsClean(s, t, m, id);
    }
  }

  /** With fewer devices and fewer directed ports a gateway is clean only if it was. */
  lemma FewerKeepsClean(s: State, t: State, m: Mac, id: nat)
    requires id in s.gateways && id in t.gateways && t.gateways[id].targets == s.gateways[id].targets
    requires t.devices == s.devices - {m} && t.directed.Keys <= s.directed.Keys && Clean(t, id)
    ensures Clean(s, id)
  {
    forall n | n in s.gateways[id].targets ensures CanLeave(s, n, id) && n in t.devices {
      assert CanLeave(t, n, id);
    }
    forall n, o | n in s.gateways[id].targets && o in s.gateways[id].targets && n != o ensures !OnePort(s.devices, n, o) {
      assert !OnePort(t.devices, n, o);
    }
  }

  lemma SameKeepsHeld(s: State, t: State, id: nat, portSet: nat)
    requires SameForGateways(s, t) && Held(s, id, portSet)
    ensures Held(t, id, portSet)
  {
    if Clean(t, id) {
      SameWasClean(s, t, id);
    }
  }

  lemma SameWasClean(s: State, t: State, id: nat)
    requires SameForGateways(s, t) && id in s.gateways && Clean(t, id)
    ensures Clean(s, id)
  {
    forall n | n in s.gateways[id].targets ensures CanLeave(s, n, id) {
      assert CanLeave(t, n, id);
    }
    forall n, o | n in s.gateways[id].targets && o in s.gateways[id].targets && n != o ensures !OnePort(s.devices, n, o) {
      assert !OnePort(t.devices, n, o);
    }
  }

  lemma EndingStep(c: Config, s: State, e: Event, id: nat, portSet: nat)
    requires Safe(c, s) && Ending(s) && Held(s, id, portSet)
    ensures Ending(Step(c, s, e)) && Held(Step(c, s, e), id, portSet)
  {
    match e
    case TriggerDevice(m, remote, env) =>
    case ConsiderQueue(env) =>
    case Finish(m, failed) =>
      if m in s.devices && s.devices[m].host {
        FinishKeepsHeld(c, s, m, failed, id, portSet);
      }
    case _ =>
      QuietIsSame(c, s, e);
      SameKeepsHeld(s, Step(c, s, e), id, portSet);
  }

  lemma {:induction false} HeldToTheEnd(c: Config, events: seq<Event>, more: seq<Event>, id: nat, portSet: nat)
    requires Ending(Run(c, events)) && Held(Run(c, events), id, portSet)
    ensures Ending(Run(c, events + more)) && Held(Run(c, events + more), id, portSet)
    decreases |more|
  {
    if more == [] {
      Units(events);
    } else {
      var n := |more| - 1;
      HeldToTheEnd(c, events, more[..n], id, portSet);
      AppendSnoc(events, more);
      EndingEvent(c, events + more[..n], more[n], id, portSet);
    }
  }

  lemma EndingEvent(c: Config, events: seq<Event>, e: Event, id: nat, portSet: nat)
    requires Ending(Run(c, events)) && Held(Run(c, events), id, portSet)
    ensures Ending(Run(c, events + [e])) && Held(Run(c, events + [e]), id, portSet)
  {
    RunAppend(c, events, e);
    EndingStep(c, Run(c, events), e, id, portSet);
  }

  /**
   * Once no more devices are started, a set is lost for good if and only if its gateway has a target
   * that is stale, or whose port has no directed traffic, or that shares its port with another.
   */
  lemma EndingLostIff(c: Config, events: seq<Event>, portSet: nat)
    requires Ending(Run(c, events)) && 1 <= portSet <= MAX_GATEWAYS
    ensures Lost(c, events, portSet) <==> HeldUp(Run(c, events), portSet)
  {
    if HeldUp(Run(c, events), portSet) {
      HeldIsLost(c, events, portSet);
    } else {
      LostIsHeldUp(c, events, portSet);
    }
  }

  lemma HeldIsLost(c: Config, events: seq<Event>, portSet: nat)
    requires Ending(Run(c, events)) && HeldUp(Run(c, events), portSet)
    ensures Lost(c, events, portSet)
  {
    var id :| Held(Run(c, events), id, portSet);
    forall more ensures portSet !in Run(c, events + more).gatewaySets {
      HeldToTheEnd(c, events, more, id, portSet);
      LiveSetIsNumbered(Run(c, events + more), id);
    }
  }

  // ---- runs without ports ---------------------------------------------------------------------------

  /** No device has a port, and each has its set id. */
  ghost predicate NoPorts(devices: Devices)
  {
    forall m :: m in devices ==> devices[m].port.None? && devices[m].setId.Some?
  }

  lemma JoinKeepsNoPorts(c: Config, s: State, mac: Mac, id: nat, failure: Failure)
    requires mac in s.devices && mac !in s.queue && NoPorts(s.devices)
    ensures NoPorts(Join(c, s, mac, id, failure).devices)
  {
    if id in s.gateways {
      LaunchEffect(c, Attach(s, mac, id), mac, id, failure);
    }
  }

  lemma ActivateKeepsNoPorts(c: Config, s: State, mac: Mac, env: Env)
    requires Safe(c, s) && mac in s.devices && !s.devices[mac].host && mac !in s.queue && NoPorts(s.devices)
    ensures NoPorts(Activate(c, s, mac, env).devices)
  {
    var t := Grouped(s, mac, env.group);
    RelabelKeepsSafe(c, s, mac, t.devices[mac]);
    ActivateFollowsPlan(c, s, mac, env);
    match Plan(s, mac, env)
    case Ignored =>
    case Failed =>
    case OnNew(n) => JoinKeepsNoPorts(c, NewGateway(t, env.group, n), mac, t.nextGateway, env.failure);
    case OnExisting(id) => JoinKeepsNoPorts(c, t, mac, id, env.failure);
  }

  lemma TriggerKeepsNoPorts(c: Config, s: State, mac: Mac, remote: bool, env: Env)
    requires Safe(c, s) && mac in s.devices && NoPorts(s.devices)
    ensures NoPorts(Trigger(c, s, mac, remote, env).devices)
  {
    if WillActivate(c, s, mac, remote) {
      var t := Taken(s, mac);
      RelabelKeepsSafe(c, s, mac, t.devices[mac]);
      ActivateKeepsNoPorts(c, t, mac, env);
    } else if !s.devices[mac].host {
      RelabelKeepsSafe(c, s, mac, Taken(s, mac).devices[mac]);
    }
  }

  lemma StepKeepsNoPorts(c: Config, s: State, e: Event)
    requires Safe(c, s) && NoPorts(s.devices) && (c.vlanMode || !e.Learn?)
    ensures NoPorts(Step(c, s, e).devices)
  {
    match e
    case TriggerDevice(mac, remote, env) =>
      if mac in s.devices {
        TriggerKeepsNoPorts(c, s, mac, remote, env);
      }
    case ConsiderQueue(env) =>
      if s.queue != [] {
        DequeueKeeps(s.devices, s.queue);
        ActivateKeepsNoPorts(c, s.(queue := s.queue[1..]), s.queue[0], env);
      }
    case Finish(mac, failed) =>
      if mac in s.devices && s.devices[mac].host {
        HostedIsNotQueued(s.devices, s.queue, mac);
        CompleteIsGone(c, s, mac, failed);
      }
    case _ => LearnKeepsNoPorts(c, s, e);
  }

  lemma LearnKeepsNoPorts(c: Config, s: State, e: Event)
    requires Waiting(s.devices, s.queue) && NoPorts(s.devices) && (c.vlanMode || !e.Learn?) && Quiet(e)
    ensures NoPorts(Step(c, s, e).devices)
  {
    var t := Step(c, s, e);
    forall m | m in t.devices ensures t.devices[m].port.None? && t.devices[m].setId.Some? {
      assert m in s.devices ==> s.devices[m].port.None? && s.devices[m].setId.Some?;
    }
  }

  /** The run learns no device on a port: its runner learns on VLANs, or just does not. */
  ghost predicate LearnsNoPort(c: Config, events: seq<Event>)
  {
    c.vlanMode || forall i :: 0 <= i < |events| ==> !events[i].Learn?
  }

  lemma {:induction false} PortlessRun(c: Config, events: seq<Event>, mac: Mac)
    requires LearnsNoPort(c, events)
    ensures NoPorts(Run(c, events).devices) && !EverLeaves(c, events, mac)
    decreases |events|
  {
    if events != [] {
      var n := |events| - 1;
      PortlessRun(c, events[..n], mac);
      StepKeepsNoPorts(c, Run(c, events[..n]), events[n]);
    }
  }

  /** A run that learns no device on a port leaves no stale target and loses no set. */
  lemma PortlessRunsLoseNothing(c: Config, events: seq<Event>, portSet: nat)
    requires LearnsNoPort(c, events) && 1 <= portSet <= MAX_GATEWAYS
    ensures forall mac :: !HasStale(Run(c, events), mac)
    ensures !Lost(c, events, portSet)
  {
    var s := Run(c, events);
    PortlessRun(c, events, "");
    forall mac ensures !HasStale(s, mac) {
      PortlessRun(c, events, mac);
      RunHasStaleIff(c, events, mac);
    }
    PortlessIsClean(s, portSet);
    LostIsHeldUp(c, events, portSet);
  }

  lemma PortlessIsClean(s: State, portSet: nat)
    requires NoPorts(s.devices) && forall mac :: !HasStale(s, mac)
    ensures !HeldUp(s, portSet)
  {
    forall id | id in s.gateways ensures Clean(s, id) {
      forall m | m in s.gateways[id].targets ensures CanLeave(s, m, id) {
        assert !HasStale(s, m);
        assert !StaleAt(s, m, id);
      }
    }
  }
}
