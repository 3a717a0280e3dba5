/**
 * The life of one device under test: its state transitions, the list of tests still to run and the
 * log of states. Foreign calls that may raise are parameters of the step they happen in.
 */
module HostLifecycle {
  import opened Octets

  type Test = string

  datatype State = Ready | Init | Waiting | Base | Monitor | Next | Testing | Done | Hold | Error | Term

  datatype Config = Config(noTest: bool, monitorScan: bool)

  /**
   * `started` are the tests taken off the list, `entered` those whose test state was reached, and
   * `log` is every state in the order the transitions were logged.
   */
  datatype Host = Host(
    state: State, enabled: seq<Test>, remaining: seq<Test>, started: seq<Test>, entered: seq<Test>,
    hasIp: bool, log: seq<State>)

  function NewHost(enabled: seq<Test>): Host
  {
    Host(Ready, enabled, enabled, [], [], false, [Ready])
  }

  /**
   * How the start of a test goes: it raises before the test state, after it, or not at all. At the
   * end of the tests it is the recording of the result, after the done state, that may raise.
   */
  datatype TestStart = RaisesBefore | RaisesAfter | Starts

  /**
   * How the end of a test goes: it raises before the transition, or while the result is recorded, or
   * goes on to what is next. An exception here enters no error state.
   */
  datatype TestEnd = RaisesBeforeNext | RaisesRecording | Recorded(next: TestStart)

  /**
   * How a part of the base tests goes: without an exception, with one that leads to the error state,
   * or with one whose handling raises again in the monitor's clean-up and changes nothing.
   */
  datatype Trouble = Fine | Caught | Escapes

  datatype Event =
    | StartRun
    | Idle(base: Trouble, pings: (bool, bool), scan: Trouble, next: TestStart)
    | IpTrigger(ready: bool, failed: bool)
    | MonitorHangup(complete: bool, next: TestStart)
    | MonitorFails
    | ModuleCallback(end: TestEnd)
    | Terminate

  /** `_state_transition`; None is a failed assertion. */
  function Transition(h: Host, target: State, expected: Option<State>): Option<Host>
  {
    if (expected.Some? && h.state != expected.value) || h.state == Term then None
    else Some(h.(state := target, log := h.log + [target]))
  }

  function OrSame(r: Option<Host>, h: Host): Host
  {
    if r.Some? then r.value else h
  }

  function Fail(h: Host): Host
  {
    OrSame(Transition(h, Error, None), h)
  }

  /** The next test, or the end of the tests. Any exception on the way is an error state. */
  function RunNext(c: Config, h: Host, next: TestStart): Host
  {
    if h.remaining != [] then
      var test := h.remaining[0];
      var popped := h.(remaining := h.remaining[1..], started := h.started + [test]);
      if next == RaisesBefore then Fail(popped)
      else match Transition(popped, Testing, Some(Next))
        case None => Fail(popped)
        case Some(t) =>
          var entered := t.(entered := t.entered + [test]);
          if next == RaisesAfter then Fail(entered) else entered
    else match Transition(h, if c.noTest then Hold else Done, Some(Next))
      case None => Fail(h)
      case Some(t) => if next == RaisesAfter && !c.noTest then Fail(t) else t
  }

  function MonitorContinue(c: Config, h: Host, next: TestStart): Host
  {
    match Transition(h, Next, Some(Monitor))
    case None => h
    case Some(t) => RunNext(c, t, next)
  }

  datatype Item = Flag(value: bool) | Text(text: string)

  /** A tuple is true when it is not the empty one, whatever it holds. */
  predicate TupleIsTrue(items: seq<Item>)
  {
    items != []
  }

  /** Each ping result is paired with a message, and it is the pair that is tested. */
  predicate BaseTestsPass(pings: (bool, bool))
  {
    && TupleIsTrue([Flag(pings.0), Text("simple ping failed")])
    && TupleIsTrue([Flag(pings.1), Text("target ping failed")])
  }

  function AfterTrouble(h: Host, trouble: Trouble): Host
  {
    if trouble == Caught then Fail(h) else h
  }

  function BaseStart(c: Config, h: Host, base: Trouble, pings: (bool, bool), scan: Trouble, next: TestStart): Host
  {
    if base != Fine then AfterTrouble(h, base)
    else if !BaseTestsPass(pings) then Fail(h)
    else match Transition(h, Monitor, Some(Base))
      case None => Fail(h)
      case Some(t) => if c.monitorScan then AfterTrouble(t, scan) else MonitorContinue(c, t, next)
  }

  function EndTest(c: Config, h: Host, end: TestEnd): Host
  {
    if end.RaisesBeforeNext? then h
    else match Transition(h, Next, Some(Testing))
      case None => h
      case Some(t) => if end.RaisesRecording? then t else RunNext(c, t, end.next)
  }

  function Step(c: Config, h: Host, e: Event): Host
  {
    match e
    case StartRun => OrSame(Transition(h, Init, Some(Ready)), h)
    case Idle(base, pings, scan, next) =>
      if h.state == Init then OrSame(Transition(h, Waiting, Some(Init)), h)
      else if h.state == Base then BaseStart(c, h, base, pings, scan, next)
      else h
    case IpTrigger(ready, failed) =>
      if h.hasIp || h.state != Waiting || !ready then h
      else
        var t := h.(hasIp := true);
        if failed then Fail(t) else OrSame(Transition(t, Base, Some(Waiting)), t)
    case MonitorHangup(complete, next) => if complete then MonitorContinue(c, h, next) else Fail(h)
    case MonitorFails => Fail(h)
    case ModuleCallback(end) => EndTest(c, h, end)
    case Terminate => OrSame(Transition(h, Term, None), h)
  }

  function Run(c: Config, enabled: seq<Test>, events: seq<Event>): Host
  {
    if events == [] then NewHost(enabled)
    else Step(c, Run(c, enabled, events[..|events| - 1]), events[|events| - 1])
  }

  // ---- the host object ------------------------------------------------------------------------

  class ConnectedHost {
    const config: Config
    const enabled: seq<Test>
    var state: State
    var remaining: seq<Test>
    var started: seq<Test>
    var entered: seq<Test>
    var hasIp: bool
    var log: seq<State>

    constructor (config: Config, enabled: seq<Test>)
      ensures this.config == config && Value() == NewHost(enabled)
    {
      this.config, this.enabled := config, enabled;
      state, remaining, started, entered, hasIp, log := Ready, enabled, [], [], false, [Ready];
    }

    function Value(): Host
      reads this
    {
      Host(state, enabled, remaining, started, entered, hasIp, log)
    }

    method StateTransition(target: State, expected: Option<State>) returns (ok: bool)
      modifies `state, `log
      ensures ok == Transition(old(Value()), target, expected).Some?
      ensures Value() == OrSame(Transition(old(Value()), target, expected), old(Value()))
    {
      if expected.Some? && state != expected.value {
        return false;
      }
      if state == Term {
        return false;
      }
      state := target;
      log := log + [target];
      return true;
    }

    method RunNextTest(next: TestStart)
      modifies this
      ensures Value() == RunNext(config, old(Value()), next)
    {
      var raised := false;
      if remaining != [] {
        var test := remaining[0];
        remaining := remaining[1..];
        started := started + [test];
        if next == RaisesBefore {
          raised := true;
        } else {
          var ok := StateTransition(Testing, Some(Next));
          if ok {
            entered := entered + [test];
          }
          raised := !ok || next == RaisesAfter;
        }
      } else {
        var ok := StateTransition(if config.noTest then Hold else Done, Some(Next));
        raised := !ok || (next == RaisesAfter && !config.noTest);
      }
      if raised {
        var ok := StateTransition(Error, None);
      }
    }

    method ContinueFromMonitor(next: TestStart)
      modifies this
      ensures Value() == MonitorContinue(config, old(Value()), next)
    {
      var ok := StateTransition(Next, Some(Monitor));
      if ok {
        RunNextTest(next);
      }
    }

    method StartBase(base: Trouble, pings: (bool, bool), scan: Trouble, next: TestStart)
      modifies this
      ensures Value() == BaseStart(config, old(Value()), base, pings, scan, next)
    {
      if base == Escapes {
        return;
      }
      if base == Caught || !BaseTestsPass(pings) {
        var ok := StateTransition(Error, None);
        return;
      }
      var ok := StateTransition(Monitor, Some(Base));
      if !ok {
        ok := StateTransition(Error, None);
      } else if !config.monitorScan {
        ContinueFromMonitor(next);
      } else if scan == Caught {
        ok := StateTransition(Error, None);
      }
    }

    method EndOfTest(end: TestEnd)
      modifies this
      ensures Value() == EndTest(config, old(Value()), end)
    {
      if end.RaisesBeforeNext? {
        return;
      }
      var ok := StateTransition(Next, Some(Testing));
      if ok && end.Recorded? {
        RunNextTest(end.next);
      }
    }

    method Handle(e: Event)
      modifies this
      ensures Value() == Step(config, old(Value()), e)
    {
      match e
      case StartRun =>
        var ok := StateTransition(Init, Some(Ready));
      case Idle(base, pings, scan, next) =>
        if state == Init {
          var ok := StateTransition(Waiting, Some(Init));
        } else if state == Base {
          StartBase(base, pings, scan, next);
        }
      case IpTrigger(ready, failed) =>
        if !hasIp && state == Waiting && ready {
          hasIp := true;
          var target, expected := Base, Some(Waiting);
          if failed {
            target, expected := Error, None;
          }
          var ok := StateTransition(target, expected);
        }
      case MonitorHangup(complete, next) =>
        if complete {
          ContinueFromMonitor(next);
        } else {
          var ok := StateTransition(Error, None);
        }
      case MonitorFails =>
        var ok := StateTransition(Error, None);
      case ModuleCallback(end) =>
        EndOfTest(end);
      case Terminate =>
        var ok := StateTransition(Term, None);
    }
  }

  // ---- the graph ------------------------------------------------------------------------------

  predicate Edge(a: State, b: State)
  {
    match b
    case Ready => false
    case Init => a == Ready
    case Waiting => a == Init
    case Base => a == Waiting
    case Monitor => a == Base
    case Next => a == Monitor || a == Testing
    case Testing => a == Next
    case Done => a == Next
    case Hold => a == Next
    case Error => a != Term
    case Term => a != Term
  }

  ghost predicate IsPath(log: seq<State>)
  {
    log != [] && log[0] == Ready && forall i, j :: 0 <= i < j < |log| && j == i + 1 ==> Edge(log[i], log[j])
  }

  function Count(log: seq<State>, s: State): nat
  {
    if log == [] then 0 else Count(log[..|log| - 1], s) + (if log[|log| - 1] == s then 1 else 0)
  }

  /** Where the list of tests stands in each state. */
  predicate TestsInOrder(h: Host)
  {
    && h.started + h.remaining == h.enabled
    && h.entered <= h.started
    && Count(h.log, Testing) == |h.entered|
    && (h.state in {Ready, Init, Waiting, Base, Monitor} ==> h.started == [])
    && (h.state in {Next, Testing, Done, Hold} ==> h.entered == h.started)
    && (Done in h.log || Hold in h.log ==> h.entered == h.enabled)
  }

  ghost predicate Inv(h: Host)
  {
    IsPath(h.log) && h.log[|h.log| - 1] == h.state && TestsInOrder(h)
  }

  lemma Append(log: seq<State>, target: State)
    requires IsPath(log) && Edge(log[|log| - 1], target)
    ensures IsPath(log + [target])
    ensures Count(log + [target], Testing) == Count(log, Testing) + (if target == Testing then 1 else 0)
  {
    assert (log + [target])[..|log|] == log;
  }

  /** Adding an edge to the log, with the bookkeeping of tests unchanged but for an entry. */
  lemma Extend(h: Host, target: State, entered: seq<Test>)
    requires Inv(h) && Edge(h.state, target)
    requires entered <= h.started && |entered| == |h.entered| + (if target == Testing then 1 else 0)
    requires target in {Ready, Init, Waiting, Base, Monitor} ==> h.started == []
    requires target in {Next, Testing, Done, Hold} ==> entered == h.started
    requires target in {Done, Hold} || Done in h.log || Hold in h.log ==> entered == h.enabled
    ensures Inv(h.(state := target, log := h.log + [target], entered := entered))
  {
    Append(h.log, target);
  }

  lemma FailKeepsInv(h: Host)
    requires Inv(h)
    ensures Inv(Fail(h))
  {
    if h.state != Term {
      Extend(h, Error, h.entered);
    }
  }

  lemma MoveKeepsInv(h: Host, target: State, from: State)
    requires Inv(h) && Edge(from, target) && target !in {Testing, Done, Hold}
    requires target == Next ==> from == Monitor || from == Testing
    ensures Inv(OrSame(Transition(h, target, Some(from)), h))
  {
    if h.state == from && from != Term {
      Extend(h, target, h.entered);
    }
  }

  lemma TakeTest(h: Host)
    requires h.remaining != [] && h.started + h.remaining == h.enabled
    ensures (h.started + [h.remaining[0]]) + h.remaining[1..] == h.enabled
  {
    assert h.remaining == [h.remaining[0]] + h.remaining[1..];
  }

  lemma {:induction false} NoDoneBeforeNext(log: seq<State>)
    requires IsPath(log) && log[|log| - 1] in {Next, Testing, Monitor, Base, Waiting, Init, Ready}
    ensures Done !in log && Hold !in log
  {
    var n := |log| - 1;
    if n > 0 {
      assert Edge(log[n - 1], log[n]);
      assert IsPath(log[..n]);
      NoDoneBeforeNext(log[..n]);
      assert log == log[..n] + [log[n]];
    }
  }

  /** The host at the end of its tests. */
  function Ended(h: Host, target: State): Host
  {
    h.(state := target, log := h.log + [target])
  }

  /** The host with its next test off the list. */
  function Popped(h: Host): Host
    requires h.remaining != []
  {
    h.(remaining := h.remaining[1..], started := h.started + [h.remaining[0]])
  }

  /** The host in its next test. */
  function Entered(h: Host): Host
    requires h.remaining != []
  {
    Popped(h).(state := Testing, log := h.log + [Testing], entered := h.entered + [h.remaining[0]])
  }

  lemma RunNextCases(c: Config, h: Host, next: TestStart)
    requires h.state == Next
    ensures var r := RunNext(c, h, next);
            if h.remaining == [] then
              var t := Ended(h, if c.noTest then Hold else Done); r == t || r == Fail(t)
            else
              r == Fail(Popped(h)) || r == Entered(h) || r == Fail(Entered(h))
  {
  }

  lemma RunNextKeepsInv(c: Config, h: Host, next: TestStart)
    requires Inv(h) && h.state == Next
    ensures Inv(RunNext(c, h, next))
  {
    RunNextCases(c, h, next);
    if h.remaining == [] {
      LastTestKeepsInv(h, if c.noTest then Hold else Done);
    } else {
      NextTestKeepsInv(h);
    }
  }

  lemma LastTestKeepsInv(h: Host, target: State)
    requires Inv(h) && h.state == Next && h.remaining == [] && target in {Done, Hold}
    ensures Inv(Ended(h, target)) && Inv(Fail(Ended(h, target)))
  {
    Units(h.started);
    Extend(h, target, h.entered);
    FailKeepsInv(Ended(h, target));
  }

  lemma NextTestKeepsInv(h: Host)
    requires Inv(h) && h.state == Next && h.remaining != []
    ensures Inv(Fail(Popped(h))) && Inv(Entered(h)) && Inv(Fail(Entered(h)))
  {
    NoDoneBeforeNext(h.log);
    TakeTest(h);
    PoppedExtend(h, Popped(h), Error, h.entered);
    PoppedExtend(h, Popped(h), Testing, h.entered + [h.remaining[0]]);
    FailKeepsInv(Entered(h));
  }

  /** As Extend, from the moment a test was taken off the list. */
  lemma PoppedExtend(h: Host, popped: Host, target: State, entered: seq<Test>)
    requires Inv(h) && h.state == Next && Done !in h.log && Hold !in h.log
    requires popped == h.(remaining := popped.remaining, started := popped.started)
    requires popped.started + popped.remaining == h.enabled && h.started <= popped.started
    requires || (target == Error && entered == h.entered)
             || (target == Testing && entered == popped.started && |entered| == |h.entered| + 1)
    ensures Inv(popped.(state := target, log := h.log + [target], entered := entered))
  {
    Append(h.log, target);
  }

  lemma ContinueKeepsInv(c: Config, h: Host, next: TestStart)
    requires Inv(h)
    ensures Inv(MonitorContinue(c, h, next))
  {
    if h.state == Monitor {
      MoveKeepsInv(h, Next, Monitor);
      RunNextKeepsInv(c, Transition(h, Next, Some(Monitor)).value, next);
    }
  }

  lemma BaseStartKeepsInv(c: Config, h: Host, base: Trouble, pings: (bool, bool), scan: Trouble, next: TestStart)
    requires Inv(h)
    ensures Inv(BaseStart(c, h, base, pings, scan, next))
  {
    FailKeepsInv(h);
    if h.state == Base {
      MoveKeepsInv(h, Monitor, Base);
      var t := Transition(h, Monitor, Some(Base)).value;
      FailKeepsInv(t);
      ContinueKeepsInv(c, t, next);
    }
  }

  lemma TriggerKeepsInv(h: Host)
    requires Inv(h) && h.state == Waiting
    ensures var t := h.(hasIp := true);
            Inv(Fail(t)) && Inv(OrSame(Transition(t, Base, Some(Waiting)), t))
  {
    FailKeepsInv(h.(hasIp := true));
    MoveKeepsInv(h.(hasIp := true), Base, Waiting);
  }

  lemma EndTestKeepsInv(c: Config, h: Host, end: TestEnd)
    requires Inv(h)
    ensures Inv(EndTest(c, h, end))
  {
    if h.state == Testing {
      MoveKeepsInv(h, Next, Testing);
      if end.Recorded? {
        RunNextKeepsInv(c, Transition(h, Next, Some(Testing)).value, end.next);
      }
    }
  }

  lemma StepKeepsInv(c: Config, h: Host, e: Event)
    requires Inv(h)
    ensures Inv(Step(c, h, e))
  {
    match e
    case StartRun => MoveKeepsInv(h, Init, Ready);
    case Idle(base, pings, scan, next) =>
      if h.state == Init {
        MoveKeepsInv(h, Waiting, Init);
      } else if h.state == Base {
        BaseStartKeepsInv(c, h, base, pings, scan, next);
      }
    case IpTrigger(ready, failed) =>
      if h.state == Waiting {
        TriggerKeepsInv(h);
      }
    case MonitorHangup(complete, next) =>
      FailKeepsInv(h);
      ContinueKeepsInv(c, h, next);
    case MonitorFails => FailKeepsInv(h);
    case ModuleCallback(end) => EndTestKeepsInv(c, h, end);
    case Terminate =>
      if h.state != Term {
        Extend(h, Term, h.entered);
      }
  }

  /**
   * Over every run the logged states follow the graph, the tests started followed by those left
   * are the enabled tests in order, and each entry to the test state is for the next of them.
   */
  lemma {:induction false} RunKeepsInv(c: Config, enabled: seq<Test>, events: seq<Event>)
    ensures Inv(Run(c, enabled, events)) && Run(c, enabled, events).enabled == enabled
  {
    if events == [] {
      NewHostInv(enabled);
    } else {
      var n := |events| - 1;
      RunKeepsInv(c, enabled, events[..n]);
      StepKeepsInv(c, Run(c, enabled, events[..n]), events[n]);
      StepKeepsEnabled(c, Run(c, enabled, events[..n]), events[n]);
    }
  }

  lemma NewHostInv(enabled: seq<Test>)
    ensures Inv(NewHost(enabled))
  {
    assert [Ready][..0] == [];
    Units(enabled);
  }

  lemma StepKeepsEnabled(c: Config, h: Host, e: Event)
    ensures Step(c, h, e).enabled == h.enabled
  {
  }

  // ---- which event leads where ----------------------------------------------------------------------

  /** The states a host goes through from between two tests. */
  function NextStates(noTest: bool, left: bool, next: TestStart): seq<State>
  {
    if left then
      match next case RaisesBefore => [Error] case RaisesAfter => [Testing, Error] case Starts => [Testing]
    else if noTest then [Hold]
    else if next == RaisesAfter then [Done, Error]
    else [Done]
  }

  /** The states a host goes through at its base tests. */
  function BaseStates(c: Config, left: bool, base: Trouble, scan: Trouble, next: TestStart): seq<State>
  {
    if base == Caught then [Error]
    else if base == Escapes then []
    else if !c.monitorScan then [Monitor, Next] + NextStates(c.noTest, left, next)
    else if scan == Caught then [Monitor, Error]
    else [Monitor]
  }

  /** The table of the life of a host: the states each event takes it through from each state. */
  function StatesOf(c: Config, h: Host, e: Event): seq<State>
  {
    var left := h.remaining != [];
    match e
    case StartRun => if h.state == Ready then [Init] else []
    case Idle(base, _, scan, next) =>
      if h.state == Init then [Waiting]
      else if h.state == Base then BaseStates(c, left, base, scan, next)
      else []
    case IpTrigger(ready, failed) =>
      if h.hasIp || h.state != Waiting || !ready then [] else if failed then [Error] else [Base]
    case MonitorHangup(complete, next) =>
      if h.state == Term then []
      else if !complete then [Error]
      else if h.state == Monitor then [Next] + NextStates(c.noTest, left, next)
      else []
    case MonitorFails => if h.state == Term then [] else [Error]
    case ModuleCallback(end) =>
      if h.state != Testing || end.RaisesBeforeNext? then []
      else if end.RaisesRecording? then [Next]
      else [Next] + NextStates(c.noTest, left, end.next)
    case Terminate => if h.state == Term then [] else [Term]
  }

  /** What a host goes through shows in its log and in its state. */
  ghost predicate GoesThrough(h: Host, t: Host, states: seq<State>)
  {
    t.log == h.log + states && t.state == if states == [] then h.state else states[|states| - 1]
  }

  lemma RunNextGoesThrough(c: Config, h: Host, next: TestStart)
    requires h.state == Next
    ensures GoesThrough(h, RunNext(c, h, next), NextStates(c.noTest, h.remaining != [], next))
  {
    Assoc(h.log, [Testing], [Error]);
    Assoc(h.log, [Done], [Error]);
    assert [Testing] + [Error] == [Testing, Error] && [Done] + [Error] == [Done, Error];
  }

  lemma ThenRunNext(c: Config, h: Host, t: Host, first: seq<State>, next: TestStart)
    requires GoesThrough(h, t, first) && first != [] && t.state == Next && t.remaining == h.remaining
    ensures GoesThrough(h, RunNext(c, t, next), first + NextStates(c.noTest, h.remaining != [], next))
  {
    RunNextGoesThrough(c, t, next);
    Assoc(h.log, first, NextStates(c.noTest, h.remaining != [], next));
  }

  lemma BaseGoesThrough(c: Config, h: Host, base: Trouble, pings: (bool, bool), scan: Trouble, next: TestStart)
    requires h.state == Base
    ensures GoesThrough(h, BaseStart(c, h, base, pings, scan, next), BaseStates(c, h.remaining != [], base, scan, next))
  {
    Units(h.log);
    if base == Fine {
      var t := Transition(h, Monitor, Some(Base)).value;
      Assoc(h.log, [Monitor], [Error]);
      Assoc(h.log, [Monitor], [Next]);
      assert [Monitor] + [Error] == [Monitor, Error] && [Monitor] + [Next] == [Monitor, Next];
      if !c.monitorScan {
        ThenRunNext(c, h, Transition(t, Next, Some(Monitor)).value, [Monitor, Next], next);
      }
    }
  }

  /** Every event takes a host through exactly the states of the table. */
  lemma EventGoesThrough(c: Config, h: Host, e: Event)
    ensures GoesThrough(h, Step(c, h, e), StatesOf(c, h, e))
  {
    Units(h.log);
    match e
    case Idle(base, pings, scan, next) =>
      if h.state == Base {
        BaseGoesThrough(c, h, base, pings, scan, next);
      }
    case MonitorHangup(complete, next) =>
      if complete && h.state == Monitor {
        ThenRunNext(c, h, Transition(h, Next, Some(Monitor)).value, [Next], next);
      }
    case ModuleCallback(end) =>
      if h.state == Testing && end.Recorded? {
        ThenRunNext(c, h, Transition(h, Next, Some(Testing)).value, [Next], end.next);
      }
    case _ =>
  }

  /** The host has an address exactly once a ready trigger met it waiting. */
  lemma AddressIsSet(c: Config, h: Host, e: Event)
    ensures Step(c, h, e).hasIp == (h.hasIp || (e.IpTrigger? && e.ready && h.state == Waiting))
  {
  }

  /** Once an error, only errors until the termination; nothing after the termination. */
  lemma {:induction false} ErrorsAndEnd(log: seq<State>, i: nat, j: nat)
    requires IsPath(log) && i <= j < |log|
    ensures log[i] == Error ==> log[j] in {Error, Term}
    ensures log[i] == Term ==> i == j
    decreases j - i
  {
    if i < j {
      ErrorsAndEnd(log, i, j - 1);
      assert Edge(log[j - 1], log[j]);
    }
  }

  /**
   * The whole contract of a run: the test state is entered at most once per enabled test, and a
   * run that reached the end of the sequence entered it exactly once for each, in order.
   */
  lemma RunTestsInOrder(c: Config, enabled: seq<Test>, events: seq<Event>)
    ensures var h := Run(c, enabled, events);
            && h.started + h.remaining == enabled
            && h.entered <= enabled && Count(h.log, Testing) == |h.entered| <= |enabled|
            && (Done in h.log ==> h.entered == enabled)
  {
    RunKeepsInv(c, enabled, events);
    var h := Run(c, enabled, events);
    assert h.entered == enabled[..|h.entered|];
  }

  /** An event that ends the wait of a host between tests: an error of its monitor, or its termination. */
  predicate Stops(e: Event)
  {
    e.MonitorFails? || e.Terminate? || (e.MonitorHangup? && !e.complete)
  }

  /** The next test, if any, is entered or fails: the host does not stay between tests. */
  lemma RunNextLeavesNext(c: Config, h: Host, next: TestStart)
    requires h.state == Next
    ensures RunNext(c, h, next).state != Next
  {
    RunNextCases(c, h, next);
  }

  lemma StepToNextIff(c: Config, h: Host, e: Event)
    ensures Step(c, h, e).state == Next
            <==> (h.state == Testing && e == ModuleCallback(RaisesRecording)) || (h.state == Next && !Stops(e))
  {
    match e
    case Idle(base, pings, scan, next) =>
      if h.state == Base {
        BaseLeavesNext(c, h, base, pings, scan, next);
      }
    case MonitorHangup(complete, next) =>
      if h.state == Monitor {
        RunNextLeavesNext(c, Transition(h, Next, Some(Monitor)).value, next);
      }
    case ModuleCallback(end) =>
      if h.state == Testing && end.Recorded? {
        RunNextLeavesNext(c, Transition(h, Next, Some(Testing)).value, end.next);
      }
    case _ =>
  }

  lemma BaseLeavesNext(c: Config, h: Host, base: Trouble, pings: (bool, bool), scan: Trouble, next: TestStart)
    requires h.state == Base
    ensures BaseStart(c, h, base, pings, scan, next).state != Next
  {
    var t := Transition(h, Monitor, Some(Base)).value;
    RunNextLeavesNext(c, Transition(t, Next, Some(Monitor)).value, next);
  }

  /** Event `k` is the end of a test whose recording raises, and nothing after it stops the host. */
  ghost predicate LeftAt(c: Config, enabled: seq<Test>, events: seq<Event>, k: nat)
  {
    && k < |events| && Run(c, enabled, events[..k]).state == Testing && events[k] == ModuleCallback(RaisesRecording)
    && forall j :: k < j < |events| ==> !Stops(events[j])
  }

  /**
   * After a run the host is between tests if and only if recording the result of some test raised and
   * no event since then stopped the host.
   */
  lemma {:induction false} LeftBetweenTestsIff(c: Config, enabled: seq<Test>, events: seq<Event>)
    ensures Run(c, enabled, events).state == Next <==> exists k :: LeftAt(c, enabled, events, k)
  {
    if events != [] {
      var n := |events| - 1;
      LeftBetweenTestsIff(c, enabled, events[..n]);
      StepToNextIff(c, Run(c, enabled, events[..n]), events[n]);
      LeftAtSnoc(c, enabled, events);
    }
  }

  lemma {:induction false} LeftAtSnoc(c: Config, enabled: seq<Test>, events: seq<Event>)
    requires events != []
    ensures var (n, e) := (|events| - 1, events[|events| - 1]);
            (exists k :: LeftAt(c, enabled, events, k))
            <==> (Run(c, enabled, events[..n]).state == Testing && e == ModuleCallback(RaisesRecording))
                 || ((exists k :: LeftAt(c, enabled, events[..n], k)) && !Stops(e))
  {
    var n := |events| - 1;
    if k: nat :| LeftAt(c, enabled, events, k) {
      if k < n {
        LeftAtPrefix(c, enabled, events, k);
      }
    }
    if k: nat :| LeftAt(c, enabled, events[..n], k) {
      LeftAtPrefix(c, enabled, events, k);
    }
    if Run(c, enabled, events[..n]).state == Testing && events[n] == ModuleCallback(RaisesRecording) {
      assert LeftAt(c, enabled, events, n);
    }
  }

  lemma {:induction false} LeftAtPrefix(c: Config, enabled: seq<Test>, events: seq<Event>, k: nat)
    requires events != [] && k < |events| - 1
    ensures var n := |events| - 1;
            LeftAt(c, enabled, events, k) <==> LeftAt(c, enabled, events[..n], k) && !Stops(events[n])
  {
    var n := |events| - 1;
    assert events[..n][..k] == events[..k];
    assert forall j :: 0 <= j < n ==> events[..n][j] == events[j];
  }

  /** The events that take a host to its first test, all calls succeeding. */
  function ToFirstTest(c: Config): seq<Event>
  {
    [StartRun, Idle(Fine, (true, true), Fine, Starts), IpTrigger(true, false), Idle(Fine, (true, true), Fine, Starts)]
    + if c.monitorScan then [MonitorHangup(true, Starts)] else []
  }

  lemma {:induction false} RunSnoc(c: Config, enabled: seq<Test>, events: seq<Event>, e: Event)
    ensures Run(c, enabled, events + [e]) == Step(c, Run(c, enabled, events), e)
  {
    Snoc(events, e);
  }

  lemma {:induction false} BaseIsReached(c: Config, enabled: seq<Test>)
    ensures var idle := Idle(Fine, (true, true), Fine, Starts);
            var h := Run(c, enabled, [StartRun, idle, IpTrigger(true, false)]);
            h.state == Base && h.remaining == enabled
  {
    var (start, idle, ip) := (StartRun, Idle(Fine, (true, true), Fine, Starts), IpTrigger(true, false));
    RunSnoc(c, enabled, [], start);
    RunSnoc(c, enabled, [start], idle);
    RunSnoc(c, enabled, [start, idle], ip);
    assert [] + [start] == [start] && [start] + [idle] == [start, idle] && [start, idle] + [ip] == [start, idle, ip];
  }

  lemma BaseGoesOn(c: Config, h: Host)
    requires h.state == Base && h.remaining != []
    ensures var t := Step(c, h, Idle(Fine, (true, true), Fine, Starts));
            if c.monitorScan then t.state == Monitor && t.remaining == h.remaining else t.state == Testing
  {
  }

  lemma {:induction false} FirstTestIsReached(c: Config, enabled: seq<Test>)
    requires enabled != []
    ensures Run(c, enabled, ToFirstTest(c)).state == Testing
  {
    var idle := Idle(Fine, (true, true), Fine, Starts);
    var es := [StartRun, idle, IpTrigger(true, false)];
    BaseIsReached(c, enabled);
    BaseGoesOn(c, Run(c, enabled, es));
    RunSnoc(c, enabled, es, idle);
    assert es + [idle] == [StartRun, idle, IpTrigger(true, false), idle];
    if c.monitorScan {
      RunSnoc(c, enabled, es + [idle], MonitorHangup(true, Starts));
    } else {
      Units(es + [idle]);
    }
  }

  /** Any host with tests can be left between them, at its first one. */
  lemma CanBeLeftBetweenTests(c: Config, enabled: seq<Test>)
    requires enabled != []
    ensures Run(c, enabled, ToFirstTest(c) + [ModuleCallback(RaisesRecording)]).state == Next
  {
    FirstTestIsReached(c, enabled);
    RunSnoc(c, enabled, ToFirstTest(c), ModuleCallback(RaisesRecording));
  }

  /** No event makes a host that is between tests, failed or terminated start a test. */
  lemma StepStartsNothing(c: Config, h: Host, e: Event)
    requires h.state in {Next, Error, Term}
    ensures Step(c, h, e).state in {Next, Error, Term} && Step(c, h, e).started == h.started
  {
  }

  /**
   * Once an event has left the host between tests, as an exception while a result is recorded does,
   * or in an error, no test is started and the end of the tests is not reached, whatever follows.
   */
  lemma {:induction false} StoppedForGood(c: Config, enabled: seq<Test>, events: seq<Event>, more: seq<Event>)
    requires Run(c, enabled, events).state in {Next, Error, Term}
    ensures var h := Run(c, enabled, events + more);
            h.state in {Next, Error, Term} && h.started == Run(c, enabled, events).started
    decreases |more|
  {
    if more == [] {
      Units(events);
    } else {
      var n := |more| - 1;
      StoppedForGood(c, enabled, events, more[..n]);
      AppendSnoc(events, more);
      Snoc(events + more[..n], more[n]);
      StepStartsNothing(c, Run(c, enabled, events + more[..n]), more[n]);
    }
  }

  /** No ping result fails the base tests: a pair is true whatever its first component is. */
  lemma PingsNeverFail(c: Config, h: Host, pings: (bool, bool), scan: Trouble, next: TestStart)
    requires h.state == Base
    ensures BaseStart(c, h, Fine, pings, scan, next) == BaseStart(c, h, Fine, (true, true), scan, next)
    ensures h.log + [Monitor] <= BaseStart(c, h, Fine, pings, scan, next).log
  {
    var t := Transition(h, Monitor, Some(Base)).value;
    ContinueExtends(c, t, next);
  }

  lemma ContinueExtends(c: Config, h: Host, next: TestStart)
    ensures h.log <= MonitorContinue(c, h, next).log && h.log <= Fail(h).log
  {
  }
}
