/** What holds of the authenticator over every run of its steps, and of the retransmission timer. */
module AuthenticatorRuns {
  import opened Octets
  import opened EapMessages
  import opened Authenticator

  /** The last action taken for a supplicant. */
  function LastFor(sent: seq<Action>, mac: Name): Option<Action>
  {
    if sent == [] then None
    else if sent[|sent| - 1].mac == mac then Some(sent[|sent| - 1])
    else LastFor(sent[..|sent| - 1], mac)
  }

  lemma LastForSnoc(sent: seq<Action>, action: Action, mac: Name)
    ensures LastFor(sent + [action], mac) == if action.mac == mac then Some(action) else LastFor(sent, mac)
  {
    assert (sent + [action])[..|sent|] == sent;
  }

  // ---- invariants of every reachable state ----------------------------------------------------

  ghost predicate LiveMachine(c: Config, w: World, mac: Name)
    requires mac in w.machines
  {
    var m := w.machines[mac];
    && m.state in {Supplicant, Radius}
    && m.timeout.Some? && m.timeout.value > 0
    && m.retries <= c.maxRetries
    && m.retry.Some? && m.retry.value.mac == mac
    && LastFor(w.sent, mac) == m.retry
  }

  ghost predicate Inv(c: Config, w: World)
  {
    && w.machines.Keys !! w.results.Keys
    && forall mac :: mac in w.machines ==> LiveMachine(c, w, mac)
  }

  lemma ApplyKeepsInv(c: Config, w: World, mac: Name, o: Outcome)
    requires Inv(c, w) && mac !in w.results
    requires o.actions == [] || (|o.actions| == 1 && o.actions[0].mac == mac)
    requires o.verdict.None? ==>
               && o.machine.state in {Supplicant, Radius}
               && o.machine.timeout.Some? && o.machine.timeout.value > 0
               && o.machine.retries <= c.maxRetries
               && o.machine.retry.Some? && o.machine.retry.value.mac == mac
               && (o.actions == [] ==> LastFor(w.sent, mac) == o.machine.retry)
               && (o.actions != [] ==> o.actions == [o.machine.retry.value])
    ensures Inv(c, Apply(w, mac, o))
  {
    var next := Apply(w, mac, o);
    forall x | x in next.machines ensures LiveMachine(c, next, x) {
      if o.actions == [] {
        Units(w.sent);
      } else {
        LastForSnoc(w.sent, o.actions[0], x);
      }
    }
  }

  lemma StepKeepsInv(c: Config, w: World, e: Event)
    requires Inv(c, w)
    ensures Inv(c, Step(c, w, e))
  {
    match e
    case ReceiveStart(mac, now) =>
      if mac !in w.machines && mac !in w.results {
        ApplyKeepsInv(c, w, mac, Started(c, mac, now));
      }
    case ReceiveEap(mac, now, message) =>
      if mac in w.machines {
        ApplyKeepsInv(c, w, mac, OnEap(c, mac, w.machines[mac], message, now));
      }
    case ReceiveReply(mac, now, payload, radiusState, kind) =>
      if mac in w.machines {
        ApplyKeepsInv(c, w, mac, OnReply(c, mac, w.machines[mac], payload, radiusState, kind, now));
      }
    case TimerCheck(mac, now) =>
      if mac in w.machines {
        ApplyKeepsInv(c, w, mac, OnTimer(c, mac, w.machines[mac], now));
      }
  }

  /**
   * In every reachable state no supplicant has both a machine and a result, every machine talks to
   * its supplicant or to the server with its timer armed, and what it would retransmit is the last
   * message sent for it.
   */
  lemma {:induction false} RunKeepsInv(c: Config, events: seq<Event>)
    ensures Inv(c, Run(c, events))
  {
    if events != [] {
      var n := |events| - 1;
      RunKeepsInv(c, events[..n]);
      StepKeepsInv(c, Run(c, events[..n]), events[n]);
    }
  }

  // ---- results --------------------------------------------------------------------------------

  lemma PrefixOfPrefix(events: seq<Event>, i: nat)
    requires i < |events|
    ensures events[..|events| - 1][..i] == events[..i]
  {
  }

  lemma StepKeepsResult(c: Config, w: World, e: Event, mac: Name)
    requires Inv(c, w) && mac in w.results
    ensures mac in Step(c, w, e).results && Step(c, w, e).results[mac] == w.results[mac]
  {
  }

  /** A result once written never changes. */
  lemma {:induction false} ResultsAreFinal(c: Config, events: seq<Event>, i: nat, mac: Name)
    requires i <= |events| && mac in Run(c, events[..i]).results
    ensures mac in Run(c, events).results && Run(c, events).results[mac] == Run(c, events[..i]).results[mac]
    decreases |events|
  {
    if i == |events| {
      assert events[..i] == events;
    } else {
      var n := |events| - 1;
      PrefixOfPrefix(events, i);
      ResultsAreFinal(c, events[..n], i, mac);
      RunKeepsInv(c, events[..n]);
      StepKeepsResult(c, Run(c, events[..n]), events[n], mac);
    }
  }

  /** Event `k` brings an Access-Accept for a machine that is waiting for the server. */
  ghost predicate AcceptedAt(c: Config, events: seq<Event>, k: nat, mac: Name)
    requires k < |events|
  {
    var w := Run(c, events[..k]);
    && events[k].ReceiveReply? && events[k].mac == mac && events[k].kind == AccessAccept
    && mac in w.machines && w.machines[mac].state == Radius
  }

  /** Event `k` is an Access-Reject for such a machine, or a timer check it has no retries left for. */
  ghost predicate FailedAt(c: Config, events: seq<Event>, k: nat, mac: Name)
    requires k < |events|
  {
    var (w, e) := (Run(c, events[..k]), events[k]);
    && e.mac == mac && mac in w.machines
    && var m := w.machines[mac];
       || (e.ReceiveReply? && e.kind == AccessReject && m.state == Radius)
       || (e.TimerCheck? && Expired(m, e.now) && m.retries >= c.maxRetries)
  }

  lemma ShiftPrefix(c: Config, events: seq<Event>, k: nat, mac: Name)
    requires k < |events| - 1
    ensures AcceptedAt(c, events[..|events| - 1], k, mac) == AcceptedAt(c, events, k, mac)
    ensures FailedAt(c, events[..|events| - 1], k, mac) == FailedAt(c, events, k, mac)
  {
    PrefixOfPrefix(events, k);
  }

  lemma {:induction false} ResultHasCause(c: Config, events: seq<Event>, mac: Name) returns (k: nat)
    requires mac in Run(c, events).results
    ensures k < |events|
    ensures if Run(c, events).results[mac] then AcceptedAt(c, events, k, mac) else FailedAt(c, events, k, mac)
  {
    var n := |events| - 1;
    var w := Run(c, events[..n]);
    RunKeepsInv(c, events[..n]);
    if mac in w.results {
      k := ResultHasCause(c, events[..n], mac);
      ShiftPrefix(c, events, k, mac);
      ResultsAreFinal(c, events, n, mac);
    } else {
      k := n;
    }
  }

  lemma CauseHasResult(c: Config, events: seq<Event>, k: nat, mac: Name)
    requires k < |events|
    ensures AcceptedAt(c, events, k, mac) ==> mac in Run(c, events).results && Run(c, events).results[mac]
    ensures FailedAt(c, events, k, mac) ==> mac in Run(c, events).results && !Run(c, events).results[mac]
  {
    RunSnoc(c, events, k);
    if AcceptedAt(c, events, k, mac) || FailedAt(c, events, k, mac) {
      RunKeepsInv(c, events[..k]);
      StepConcludes(c, Run(c, events[..k]), events[k], mac, AcceptedAt(c, events, k, mac));
      ResultsAreFinal(c, events, k + 1, mac);
    }
  }

  lemma RunSnoc(c: Config, events: seq<Event>, k: nat)
    requires k < |events|
    ensures Run(c, events[..k + 1]) == Step(c, Run(c, events[..k]), events[k])
  {
    assert events[..k + 1][..k] == events[..k];
  }

  lemma StepConcludes(c: Config, w: World, e: Event, mac: Name, accepted: bool)
    requires Inv(c, w) && e.mac == mac && mac in w.machines
    requires if accepted then e.ReceiveReply? && e.kind == AccessAccept && w.machines[mac].state == Radius
             else || (e.ReceiveReply? && e.kind == AccessReject && w.machines[mac].state == Radius)
                  || (e.TimerCheck? && Expired(w.machines[mac], e.now) && w.machines[mac].retries >= c.maxRetries)
    ensures mac in Step(c, w, e).results && Step(c, w, e).results[mac] == accepted
  {
  }

  /**
   * A supplicant's result is success exactly when an Access-Accept reached its machine in the
   * RADIUS state, and failure exactly when an Access-Reject did or its retries ran out.
   */
  lemma ResultIffCause(c: Config, events: seq<Event>, mac: Name)
    ensures (mac in Run(c, events).results && Run(c, events).results[mac])
            <==> exists k :: 0 <= k < |events| && AcceptedAt(c, events, k, mac)
    ensures (mac in Run(c, events).results && !Run(c, events).results[mac])
            <==> exists k :: 0 <= k < |events| && FailedAt(c, events, k, mac)
  {
    if mac in Run(c, events).results {
      var k := ResultHasCause(c, events, mac);
    }
    forall k | 0 <= k < |events|
      ensures AcceptedAt(c, events, k, mac) ==> mac in Run(c, events).results && Run(c, events).results[mac]
      ensures FailedAt(c, events, k, mac) ==> mac in Run(c, events).results && !Run(c, events).results[mac]
    {
      CauseHasResult(c, events, k, mac);
    }
  }

  /** A machine has an EAPOL start behind it; one in the RADIUS state an EAP message after that. */
  lemma {:induction false} MachineHasHistory(c: Config, events: seq<Event>, mac: Name) returns (i: nat, j: nat)
    requires mac in Run(c, events).machines
    ensures i < |events| && events[i].ReceiveStart? && events[i].mac == mac
    ensures Run(c, events).machines[mac].state == Radius ==>
              i < j < |events| && events[j].ReceiveEap? && events[j].mac == mac
  {
    var n := |events| - 1;
    var w := Run(c, events[..n]);
    RunKeepsInv(c, events[..n]);
    if mac in w.machines {
      i, j := MachineHasHistory(c, events[..n], mac);
      if w.machines[mac].state != Radius {
        j := n;
      }
    } else {
      i, j := n, 0;
    }
  }

  /** Nobody is authenticated without having started, then answered, then been accepted. */
  lemma SuccessNeedsWholeExchange(c: Config, events: seq<Event>, mac: Name) returns (i: nat, j: nat, k: nat)
    requires mac in Run(c, events).results && Run(c, events).results[mac]
    ensures i < j < k < |events|
    ensures events[i].ReceiveStart? && events[i].mac == mac
    ensures events[j].ReceiveEap? && events[j].mac == mac
    ensures AcceptedAt(c, events, k, mac)
  {
    k := ResultHasCause(c, events, mac);
    i, j := MachineHasHistory(c, events[..k], mac);
  }

  // ---- retransmission -------------------------------------------------------------------------

  /** A stretch of a run, from any state. */
  ghost function RunFrom(c: Config, w: World, events: seq<Event>): (r: World)
    requires Ready(w)
    ensures Ready(r)
    decreases |events|
  {
    if events == [] then w else RunFrom(c, Step(c, w, events[0]), events[1..])
  }

  lemma {:induction false} RunGoesOn(c: Config, before: seq<Event>, events: seq<Event>)
    ensures Run(c, before + events) == RunFrom(c, Run(c, before), events)
    decreases |events|
  {
    if events == [] {
      Units(before);
    } else {
      Snoc(before, events[0]);
      RunGoesOn(c, before + [events[0]], events[1..]);
      HeadAndTail(events);
      Assoc(before, [events[0]], events[1..]);
    }
  }

  /** The actions taken for a supplicant, in order. */
  function SentFor(sent: seq<Action>, mac: Name): seq<Action>
  {
    if sent == [] then []
    else
      var n := |sent| - 1;
      SentFor(sent[..n], mac) + if sent[n].mac == mac then [sent[n]] else []
  }

  lemma SentForSnoc(sent: seq<Action>, action: Action, mac: Name)
    ensures SentFor(sent + [action], mac) == SentFor(sent, mac) + if action.mac == mac then [action] else []
  {
    Snoc(sent, action);
  }

  /** Two states that are the same for a supplicant. */
  ghost predicate SameFor(w: World, v: World, mac: Name)
  {
    && (mac in w.machines <==> mac in v.machines) && (mac in w.machines ==> w.machines[mac] == v.machines[mac])
    && (mac in w.results <==> mac in v.results) && (mac in w.results ==> w.results[mac] == v.results[mac])
    && SentFor(w.sent, mac) == SentFor(v.sent, mac)
  }

  lemma ApplyToOther(w: World, other: Name, o: Outcome, mac: Name)
    requires mac != other && (o.actions == [] || (|o.actions| == 1 && o.actions[0].mac == other))
    ensures SameFor(w, Apply(w, other, o), mac)
  {
    if o.actions == [] {
      Units(w.sent);
    } else {
      assert o.actions == [o.actions[0]];
      SentForSnoc(w.sent, o.actions[0], mac);
      Units(SentFor(w.sent, mac));
    }
  }

  /** What happens to other supplicants changes nothing for this one. */
  lemma OthersDoNotMatter(c: Config, w: World, e: Event, mac: Name)
    requires Inv(c, w) && e.mac != mac
    ensures SameFor(w, Step(c, w, e), mac)
  {
    match e
    case ReceiveStart(m, now) =>
      if m !in w.machines && m !in w.results {
        ApplyToOther(w, m, Started(c, m, now), mac);
      }
    case ReceiveEap(m, now, message) =>
      if m in w.machines {
        ApplyToOther(w, m, OnEap(c, m, w.machines[m], message, now), mac);
      }
    case ReceiveReply(m, now, payload, radiusState, kind) =>
      if m in w.machines {
        ApplyToOther(w, m, OnReply(c, m, w.machines[m], payload, radiusState, kind, now), mac);
      }
    case TimerCheck(m, now) =>
      if m in w.machines {
        ApplyToOther(w, m, OnTimer(c, m, w.machines[m], now), mac);
      }
  }

  /** No message of the supplicant arrives: its own events are checks of its timer. */
  predicate Quiet(events: seq<Event>, mac: Name)
  {
    forall i :: 0 <= i < |events| && events[i].mac == mac ==> events[i].TimerCheck?
  }

  function Copies(a: Action, n: nat): seq<Action>
  {
    seq(n, _ => a)
  }

  lemma CopiesAdd(sent: seq<Action>, a: Action, n: nat)
    ensures (sent + [a]) + Copies(a, n) == sent + Copies(a, n + 1)
  {
  }

  /** The event is a check that finds the supplicant's timer expired. */
  predicate Expires(e: Event, mac: Name, deadline: nat)
  {
    e.TimerCheck? && e.mac == mac && e.now > deadline
  }

  /** How many of the supplicant's checks find its timer expired, when each retransmission re-arms it. */
  function ExpiredCount(c: Config, mac: Name, deadline: nat, events: seq<Event>): nat
    decreases |events|
  {
    if events == [] then 0
    else if Expires(events[0], mac, deadline) then 1 + ExpiredCount(c, mac, events[0].now + c.idle, events[1..])
    else ExpiredCount(c, mac, deadline, events[1..])
  }

  /** The deadline that the last of these retransmissions set. */
  function LastDeadline(c: Config, mac: Name, deadline: nat, events: seq<Event>): nat
    decreases |events|
  {
    if events == [] then deadline
    else if Expires(events[0], mac, deadline) then LastDeadline(c, mac, events[0].now + c.idle, events[1..])
    else LastDeadline(c, mac, deadline, events[1..])
  }

  lemma {:induction false} NothingForNobody(c: Config, w: World, mac: Name, events: seq<Event>)
    requires Inv(c, w) && mac !in w.machines && mac in w.results && Quiet(events, mac)
    ensures SameFor(w, RunFrom(c, w, events), mac)
    decreases |events|
  {
    if events != [] {
      StepKeepsInv(c, w, events[0]);
      if events[0].mac != mac {
        OthersDoNotMatter(c, w, events[0], mac);
      }
      NothingForNobody(c, Step(c, w, events[0]), mac, events[1..]);
    }
  }

  /** Where a supplicant is when `n` checks found its timer expired and the last set this deadline. */
  ghost predicate AfterExpiries(c: Config, w: World, mac: Name, n: nat, deadline: nat, after: World)
    requires Inv(c, w) && mac in w.machines
  {
    var (m, was, now) := (w.machines[mac], SentFor(w.sent, mac), SentFor(after.sent, mac));
    var left := c.maxRetries - m.retries;
    if n <= left then
      && mac in after.machines && mac !in after.results
      && after.machines[mac] == m.(retries := m.retries + n, timeout := Some(deadline))
      && now == was + Copies(m.retry.value, n)
    else
      && mac !in after.machines && mac in after.results && !after.results[mac]
      && now == was + Copies(m.retry.value, left) + [SendEap(mac, Some(Failure(255)))]
  }

  /** One retransmission, then the rest. */
  lemma AfterOneMore(c: Config, w: World, mac: Name, now: Time, n: nat, deadline: nat, after: World)
    requires Inv(c, w) && mac in w.machines
    requires Expired(w.machines[mac], now) && w.machines[mac].retries < c.maxRetries
    requires var next := Step(c, w, TimerCheck(mac, now));
             Inv(c, next) && mac in next.machines && AfterExpiries(c, next, mac, n, deadline, after)
    ensures AfterExpiries(c, w, mac, n + 1, deadline, after)
  {
    var m := w.machines[mac];
    SentForSnoc(w.sent, m.retry.value, mac);
    CopiesAdd(SentFor(w.sent, mac), m.retry.value, n);
    CopiesAdd(SentFor(w.sent, mac), m.retry.value, c.maxRetries - m.retries - 1);
  }

  /** The check that finds no retries left, and whatever follows it. */
  lemma AfterLast(c: Config, w: World, mac: Name, now: Time, events: seq<Event>, n: nat, deadline: nat)
    requires Inv(c, w) && mac in w.machines && Quiet(events, mac)
    requires Expired(w.machines[mac], now) && w.machines[mac].retries == c.maxRetries
    ensures AfterExpiries(c, w, mac, n + 1, deadline, RunFrom(c, Step(c, w, TimerCheck(mac, now)), events))
  {
    var next := Step(c, w, TimerCheck(mac, now));
    StepKeepsInv(c, w, TimerCheck(mac, now));
    NothingForNobody(c, next, mac, events);
    SentForSnoc(w.sent, SendEap(mac, Some(Failure(255))), mac);
    Units(SentFor(w.sent, mac));
  }

  lemma AfterNothing(c: Config, w: World, v: World, mac: Name, n: nat, deadline: nat, after: World)
    requires Inv(c, w) && Inv(c, v) && SameFor(w, v, mac) && mac in w.machines
    requires AfterExpiries(c, v, mac, n, deadline, after)
    ensures AfterExpiries(c, w, mac, n, deadline, after)
  {
  }

  /**
   * While no message of a supplicant arrives, whatever happens to others in between: with r retries
   * left, the first r of its checks that find its timer expired each send its last message once more
   * and nothing else, and the next such check fails it. Checks before the deadline do nothing.
   */
  lemma {:induction false} RetransmitsThenFails(c: Config, w: World, mac: Name, events: seq<Event>)
    requires Inv(c, w) && mac in w.machines && Quiet(events, mac)
    ensures var deadline := w.machines[mac].timeout.value;
            AfterExpiries(c, w, mac, ExpiredCount(c, mac, deadline, events), LastDeadline(c, mac, deadline, events),
                          RunFrom(c, w, events))
    decreases |events|
  {
    var m := w.machines[mac];
    if events == [] {
      Units(SentFor(w.sent, mac));
    } else {
      var (e, rest) := (events[0], events[1..]);
      var next := Step(c, w, e);
      StepKeepsInv(c, w, e);
      if !Expires(e, mac, m.timeout.value) {
        if e.mac == mac {
          NothingExpired(c, w, mac, e.now);
        } else {
          OthersDoNotMatter(c, w, e, mac);
        }
        RetransmitsThenFails(c, next, mac, rest);
        AfterNothing(c, w, next, mac, ExpiredCount(c, mac, m.timeout.value, events),
                     LastDeadline(c, mac, m.timeout.value, events), RunFrom(c, w, events));
      } else if m.retries < c.maxRetries {
        RetransmitsThenFails(c, next, mac, rest);
        AfterOneMore(c, w, mac, e.now, ExpiredCount(c, mac, e.now + c.idle, rest),
                     LastDeadline(c, mac, e.now + c.idle, rest), RunFrom(c, next, rest));
      } else {
        AfterLast(c, w, mac, e.now, rest, ExpiredCount(c, mac, e.now + c.idle, rest),
                  LastDeadline(c, mac, e.now + c.idle, rest));
      }
    }
  }

  /** The same at any point of any run from the start. */
  lemma RunsRetransmitThenFail(c: Config, before: seq<Event>, mac: Name, events: seq<Event>)
    requires mac in Run(c, before).machines && Quiet(events, mac)
    ensures Inv(c, Run(c, before))
    ensures var w := Run(c, before);
            var deadline := w.machines[mac].timeout.value;
            AfterExpiries(c, w, mac, ExpiredCount(c, mac, deadline, events), LastDeadline(c, mac, deadline, events),
                          Run(c, before + events))
  {
    RunKeepsInv(c, before);
    RetransmitsThenFails(c, Run(c, before), mac, events);
    RunGoesOn(c, before, events);
  }

  lemma NothingExpired(c: Config, w: World, mac: Name, now: Time)
    requires Ready(w) && mac in w.machines && !Expired(w.machines[mac], now)
    ensures Step(c, w, TimerCheck(mac, now)) == w
  {
    Units(w.sent);
    assert w.machines[mac := w.machines[mac]] == w.machines;
  }

  /** Any message that moves a machine on re-arms its timer and resets the count of retries. */
  lemma ProgressResetsRetries(c: Config, w: World, e: Event)
    requires Inv(c, w) && !e.TimerCheck?
    requires e.mac in Step(c, w, e).machines
    requires e.mac in w.machines ==> Step(c, w, e).machines[e.mac].state != w.machines[e.mac].state
    ensures var m := Step(c, w, e).machines[e.mac];
            && m.retries == 0 && m.timeout == Some(e.now + c.idle)
            && m.retry.Some? && Step(c, w, e).sent == w.sent + [m.retry.value]
  {
  }
}
