/**
 * The 802.1X authenticator: one state machine per supplicant, its retransmission timer, and the
 * table of results. Each message, and each timer check of one machine, is one atomic step.
 */
module Authenticator {
  import opened Octets
  import opened EapMessages

  type Name = string  // a MAC address in its text form

  type Time = t: nat | t > 0 witness 1  // a reading of the clock, which is never zero

  /** The machine's idle time and its limit of retransmissions. */
  datatype Config = Config(idle: nat, maxRetries: nat)

  datatype State = Start | Supplicant | Radius | Fail | Succeeded

  datatype Action =
    | SendEap(mac: Name, message: Option<Message>)  // without a message: the identity request
    | SendRadius(mac: Name, payload: Message, identity: Option<string>, radiusState: Option<Octets>)

  datatype ReplyKind = AccessReject | AccessAccept | OtherReply

  datatype Machine = Machine(
    state: State, identity: Option<string>, radiusState: Option<Octets>,
    timeout: Option<nat>, retry: Option<Action>, retries: nat)

  datatype Event =
    | ReceiveStart(mac: Name, now: Time)
    | ReceiveEap(mac: Name, now: Time, message: Message)
    | ReceiveReply(mac: Name, now: Time, payload: Option<Message>, radiusState: Option<Octets>, kind: ReplyKind)
    | TimerCheck(mac: Name, now: Time)

  datatype World = World(machines: map<Name, Machine>, results: map<Name, bool>, sent: seq<Action>)

  /** What one handler did: the machine afterwards, the actions it took, its verdict if any. */
  datatype Outcome = Outcome(machine: Machine, actions: seq<Action>, verdict: Option<bool>)

  // ---- the handlers of one machine ------------------------------------------------------------

  function Started(c: Config, mac: Name, now: Time): Outcome
  {
    var action := SendEap(mac, None);
    Outcome(Machine(Supplicant, None, None, Some(now + c.idle), Some(action), 0), [action], None)
  }

  function Identified(m: Machine, message: Message): Machine
  {
    if message.Identity? && (m.identity.None? || m.identity.value == "") then
      m.(identity := Some(message.identity))
    else m
  }

  /** In any state but Supplicant the handler raises, after the identity was recorded. */
  function OnEap(c: Config, mac: Name, m: Machine, message: Message, now: Time): Outcome
  {
    var n := Identified(m, message);
    if m.state != Supplicant then Outcome(n, [], None)
    else
      var action := SendRadius(mac, message, n.identity, n.radiusState);
      Outcome(n.(state := Radius, timeout := Some(now + c.idle), retry := Some(action), retries := 0), [action], None)
  }

  /** In any state but Radius the handler raises, after the RADIUS state was recorded. */
  function OnReply(c: Config, mac: Name, m: Machine, payload: Option<Message>, radiusState: Option<Octets>,
                   kind: ReplyKind, now: Time): Outcome
  {
    var n := m.(radiusState := radiusState);
    if m.state != Radius then Outcome(n, [], None)
    else match kind
      case AccessReject => Outcome(n.(state := Fail), [SendEap(mac, Some(Failure(255)))], Some(false))
      case AccessAccept => Outcome(n.(state := Succeeded), [SendEap(mac, payload)], Some(true))
      case OtherReply =>
        var action := SendEap(mac, payload);
        Outcome(n.(state := Supplicant, timeout := Some(now + c.idle), retry := Some(action), retries := 0), [action], None)
  }

  predicate Expired(m: Machine, now: Time)
  {
    m.timeout.Some? && m.timeout.value != 0 && now > m.timeout.value
  }

  function OnTimer(c: Config, mac: Name, m: Machine, now: Time): Outcome
    requires m.retry.Some?
  {
    if !Expired(m, now) then Outcome(m, [], None)
    else if m.retries < c.maxRetries then
      Outcome(m.(retries := m.retries + 1, timeout := Some(now + c.idle)), [m.retry.value], None)
    else
      Outcome(m.(state := Fail, timeout := None), [SendEap(mac, Some(Failure(255)))], Some(false))
  }

  // ---- the authenticator ----------------------------------------------------------------------

  function Apply(w: World, mac: Name, o: Outcome): World
  {
    var sent := w.sent + o.actions;
    if o.verdict.Some? then World(w.machines - {mac}, w.results[mac := o.verdict.value], sent)
    else World(w.machines[mac := o.machine], w.results, sent)
  }

  ghost predicate Ready(w: World)
  {
    forall mac :: mac in w.machines ==> w.machines[mac].retry.Some?
  }

  /** A message for a MAC without a machine raises and changes nothing. */
  ghost function Step(c: Config, w: World, e: Event): (r: World)
    requires Ready(w)
    ensures Ready(r)
  {
    match e
    case ReceiveStart(mac, now) =>
      if mac in w.machines || mac in w.results then w else Apply(w, mac, Started(c, mac, now))
    case ReceiveEap(mac, now, message) =>
      if mac !in w.machines then w else Apply(w, mac, OnEap(c, mac, w.machines[mac], message, now))
    case ReceiveReply(mac, now, payload, radiusState, kind) =>
      if mac !in w.machines then w
      else Apply(w, mac, OnReply(c, mac, w.machines[mac], payload, radiusState, kind, now))
    case TimerCheck(mac, now) =>
      if mac !in w.machines then w else Apply(w, mac, OnTimer(c, mac, w.machines[mac], now))
  }

  /** The state after a run of events, from the empty tables. */
  ghost function Run(c: Config, events: seq<Event>): (w: World)
    ensures Ready(w)
  {
    if events == [] then World(map[], map[], [])
    else Step(c, Run(c, events[..|events| - 1]), events[|events| - 1])
  }

  // ---- the objects ----------------------------------------------------------------------------

  class AuthStateMachine {
    const mac: Name
    var state: State
    var identity: Option<string>
    var radiusState: Option<Octets>
    var timeout: Option<nat>
    var retry: Option<Action>
    var retries: nat

    constructor (mac: Name)
      ensures this.mac == mac && Value() == Machine(Start, None, None, None, None, 0)
    {
      this.mac := mac;
      state, identity, radiusState, timeout, retry, retries := Start, None, None, None, None, 0;
    }

    function Value(): Machine
      reads this
    {
      Machine(state, identity, radiusState, timeout, retry, retries)
    }

    method StateTransition(target: State, expected: Option<State>) returns (ok: bool)
      modifies `state
      ensures ok == (expected.None? || old(state) == expected.value)
      ensures state == if ok then target else old(state)
    {
      if expected.Some? && state != expected.value {
        return false;
      }
      state := target;
      return true;
    }

    method SetRetry(c: Config, action: Action, now: Time)
      modifies `timeout, `retry, `retries
      ensures timeout == Some(now + c.idle) && retry == Some(action) && retries == 0
    {
      timeout := Some(now + c.idle);
      retry := Some(action);
      retries := 0;
    }

    /** `initialize` followed by `received_eapol_start`. */
    method ReceivedEapolStart(c: Config, now: Time) returns (actions: seq<Action>)
      requires state == Start && identity.None? && radiusState.None?
      modifies this
      ensures Outcome(Value(), actions, None) == Started(c, mac, now)
    {
      SetRetry(c, SendEap(mac, None), now);
      var ok := StateTransition(Supplicant, Some(Start));
      SetRetry(c, SendEap(mac, None), now);
      actions := [SendEap(mac, None)];
    }

    method ReceivedEapRequest(c: Config, message: Message, now: Time) returns (actions: seq<Action>)
      modifies this
      ensures Outcome(Value(), actions, None) == OnEap(c, mac, old(Value()), message, now)
    {
      if message.Identity? && (identity.None? || identity.value == "") {
        identity := Some(message.identity);
      }
      var ok := StateTransition(Radius, Some(Supplicant));
      if !ok {
        return [];
      }
      var action := SendRadius(mac, message, identity, radiusState);
      SetRetry(c, action, now);
      actions := [action];
    }

    method ReceivedRadiusResponse(c: Config, payload: Option<Message>, newState: Option<Octets>, kind: ReplyKind, now: Time)
      returns (actions: seq<Action>, verdict: Option<bool>)
      modifies this
      ensures Outcome(Value(), actions, verdict) == OnReply(c, mac, old(Value()), payload, newState, kind, now)
    {
      radiusState := newState;
      verdict, actions := None, [];
      if kind == AccessReject {
        var ok := StateTransition(Fail, Some(Radius));
        if ok {
          verdict, actions := Some(false), [SendEap(mac, Some(Failure(255)))];
        }
      } else if kind == AccessAccept {
        var ok := StateTransition(Succeeded, Some(Radius));
        if ok {
          verdict, actions := Some(true), [SendEap(mac, payload)];
        }
      } else {
        var ok := StateTransition(Supplicant, Some(Radius));
        if ok {
          SetRetry(c, SendEap(mac, payload), now);
          actions := [SendEap(mac, payload)];
        }
      }
    }

    method HandleTimer(c: Config, now: Time) returns (actions: seq<Action>, verdict: Option<bool>)
      requires retry.Some?
      modifies this
      ensures Outcome(Value(), actions, verdict) == OnTimer(c, mac, old(Value()), now)
    {
      verdict, actions := None, [];
      if timeout.Some? && timeout.value != 0 && now > timeout.value {
        if retries < c.maxRetries {
          retries := retries + 1;
          timeout := Some(now + c.idle);
          actions := [retry.value];
        } else {
          var ok := StateTransition(Fail, None);
          timeout := None;
          verdict, actions := Some(false), [SendEap(mac, Some(Failure(255)))];
        }
      }
    }
  }

  class AuthenticatorServer {
    const config: Config
    var machines: map<Name, AuthStateMachine>
    var results: map<Name, bool>
    var sent: seq<Action>

    ghost predicate Valid()
      reads this, machines.Values
    {
      forall mac :: mac in machines ==> machines[mac].mac == mac && machines[mac].retry.Some?
    }

    ghost function Value(): World
      reads this, machines.Values
    {
      World(map mac | mac in machines :: machines[mac].Value(), results, sent)
    }

    constructor (config: Config)
      ensures Valid() && this.config == config && Value() == World(map[], map[], [])
    {
      this.config, machines, results, sent := config, map[], map[], [];
    }

    method ProcessTestResult(mac: Name, isSuccess: bool)
      modifies `results, `machines
      ensures results == old(results)[mac := isSuccess] && machines == old(machines) - {mac}
    {
      results := results[mac := isSuccess];
      machines := machines - {mac};
    }

    /** The callbacks of a handler: its verdict, if any, then its actions. */
    method Conclude(mac: Name, actions: seq<Action>, verdict: Option<bool>, ghost before: World)
      requires Valid() && mac in machines
      requires Value() == before.(machines := before.machines[mac := machines[mac].Value()])
      modifies this
      ensures Valid()
      ensures Value() == Apply(before, mac, Outcome(old(machines[mac].Value()), actions, verdict))
    {
      if verdict.Some? {
        ProcessTestResult(mac, verdict.value);
        assert Value().machines == old(Value()).machines - {mac} == before.machines - {mac};
      }
      sent := sent + actions;
    }

    method StartAuthentication(mac: Name, now: Time)
      requires Valid() && mac !in machines && mac !in results
      modifies this
      ensures Valid()
      ensures Value() == Apply(old(Value()), mac, Started(config, mac, now))
    {
      var machine := new AuthStateMachine(mac);
      var actions := machine.ReceivedEapolStart(config, now);
      machines := machines[mac := machine];
      sent := sent + actions;
      assert Value().machines == old(Value()).machines[mac := machine.Value()];
    }

    method ReceivedEapRequest(mac: Name, message: Message, isEapol: bool, now: Time)
      requires Valid()
      modifies this, machines.Values
      ensures Valid()
      ensures Value() == Step(config, old(Value()), if isEapol then ReceiveStart(mac, now) else ReceiveEap(mac, now, message))
    {
      if isEapol {
        if !(mac in machines || mac in results) {
          StartAuthentication(mac, now);
        }
      } else if mac in machines {
        var actions := machines[mac].ReceivedEapRequest(config, message, now);
        sent := sent + actions;
        assert Value().machines == old(Value()).machines[mac := machines[mac].Value()];
      }
    }

    method ReceivedRadiusResponse(mac: Name, payload: Option<Message>, radiusState: Option<Octets>, kind: ReplyKind, now: Time)
      requires Valid()
      modifies this, machines.Values
      ensures Valid()
      ensures Value() == Step(config, old(Value()), ReceiveReply(mac, now, payload, radiusState, kind))
    {
      if mac in machines {
        var actions, verdict := machines[mac].ReceivedRadiusResponse(config, payload, radiusState, kind, now);
        assert Value().machines == old(Value()).machines[mac := machines[mac].Value()];
        Conclude(mac, actions, verdict, old(Value()));
      }
    }

    /** One machine's share of the heartbeat. */
    method CheckTimer(mac: Name, now: Time)
      requires Valid()
      modifies this, machines.Values
      ensures Valid()
      ensures Value() == Step(config, old(Value()), TimerCheck(mac, now))
    {
      if mac in machines {
        var actions, verdict := machines[mac].HandleTimer(config, now);
        assert Value().machines == old(Value()).machines[mac := machines[mac].Value()];
        Conclude(mac, actions, verdict, old(Value()));
      }
    }
  }
}
