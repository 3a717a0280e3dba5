/**
 * What the authenticator sends to whom, told from the events of a run alone: the phase a supplicant is
 * in, the identity and the RADIUS state it is remembered with, and what each event adds to the messages
 * sent for it.
 */
module AuthenticatorMessages {
  import opened Octets
  import opened EapMessages
  import opened Authenticator
  import opened AuthenticatorRuns

  // ---- what the events say ----------------------------------------------------------------------

  /** The supplicant has sent an EAPOL start. */
  predicate HasStarted(events: seq<Event>, mac: Name)
  {
    exists i :: 0 <= i < |events| && events[i].ReceiveStart? && events[i].mac == mac
  }

  lemma StartedSnoc(events: seq<Event>, e: Event, mac: Name)
    ensures HasStarted(events + [e], mac) <==> HasStarted(events, mac) || (e.ReceiveStart? && e.mac == mac)
  {
    if HasStarted(events, mac) {
      var i :| 0 <= i < |events| && events[i].ReceiveStart? && events[i].mac == mac;
      assert (events + [e])[i] == events[i];
    }
    assert (events + [e])[|events|] == e;
  }

  /** The identity of the first Identity message since the start; an empty one gives way to the next. */
  ghost function IdentityOf(events: seq<Event>, mac: Name): Option<string>
  {
    if events == [] then None
    else
      var (init, e) := (events[..|events| - 1], events[|events| - 1]);
      var known := IdentityOf(init, mac);
      if e.ReceiveEap? && e.mac == mac && e.message.Identity? && HasStarted(init, mac) && known in {None, Some("")}
      then Some(e.message.identity) else known
  }

  /** The RADIUS state of the last reply since the start. */
  ghost function RadiusStateOf(events: seq<Event>, mac: Name): Option<Octets>
  {
    if events == [] then None
    else
      var (init, e) := (events[..|events| - 1], events[|events| - 1]);
      if e.ReceiveReply? && e.mac == mac && HasStarted(init, mac) then e.radiusState else RadiusStateOf(init, mac)
  }

  /** Whose turn it is: the supplicant's after a start, and then by turns. */
  ghost function PhaseOf(events: seq<Event>, mac: Name): State
  {
    if events == [] then Start
    else
      var (init, e) := (events[..|events| - 1], events[|events| - 1]);
      var before := PhaseOf(init, mac);
      if e.mac != mac then before
      else if e.ReceiveStart? && before == Start then Supplicant
      else if e.ReceiveEap? && before == Supplicant then Radius
      else if e.ReceiveReply? && before == Radius && e.kind == OtherReply then Supplicant
      else before
  }

  lemma {:induction false} StartedPhase(events: seq<Event>, mac: Name)
    ensures PhaseOf(events, mac) == Start <==> !HasStarted(events, mac)
    ensures PhaseOf(events, mac) in {Start, Supplicant, Radius}
    ensures !HasStarted(events, mac) ==> IdentityOf(events, mac).None? && RadiusStateOf(events, mac).None?
  {
    if events != [] {
      var (init, e) := (events[..|events| - 1], events[|events| - 1]);
      StartedPhase(init, mac);
      StartedSnoc(init, e, mac);
      assert init + [e] == events;
    }
  }

  // ---- what the tables hold ---------------------------------------------------------------------

  /** The table of machines says of a supplicant what the events say. */
  ghost predicate Remembers(w: World, events: seq<Event>, mac: Name)
  {
    && (HasStarted(events, mac) <==> mac in w.machines || mac in w.results)
    && (mac in w.machines ==>
          && w.machines[mac].state == PhaseOf(events, mac)
          && w.machines[mac].identity == IdentityOf(events, mac)
          && w.machines[mac].radiusState == RadiusStateOf(events, mac))
  }

  lemma {:induction false} OtherEvent(events: seq<Event>, e: Event, mac: Name)
    requires e.mac != mac
    ensures PhaseOf(events + [e], mac) == PhaseOf(events, mac)
    ensures IdentityOf(events + [e], mac) == IdentityOf(events, mac)
    ensures RadiusStateOf(events + [e], mac) == RadiusStateOf(events, mac)
  {
    Snoc(events, e);
  }

  lemma {:induction false} OwnEvent(events: seq<Event>, e: Event)
    ensures var (mac, phase) := (e.mac, PhaseOf(events, e.mac));
            && PhaseOf(events + [e], mac)
               == (if e.ReceiveStart? && phase == Start then Supplicant
                   else if e.ReceiveEap? && phase == Supplicant then Radius
                   else if e.ReceiveReply? && phase == Radius && e.kind == OtherReply then Supplicant
                   else phase)
            && IdentityOf(events + [e], mac)
               == (if e.ReceiveEap? && e.message.Identity? && HasStarted(events, mac) && IdentityOf(events, mac) in {None, Some("")}
                   then Some(e.message.identity) else IdentityOf(events, mac))
            && RadiusStateOf(events + [e], mac)
               == if e.ReceiveReply? && HasStarted(events, mac) then e.radiusState else RadiusStateOf(events, mac)
  {
    Snoc(events, e);
  }

  lemma StepRemembersOther(c: Config, w: World, events: seq<Event>, e: Event, mac: Name)
    requires Inv(c, w) && Remembers(w, events, mac) && e.mac != mac
    ensures Remembers(Step(c, w, e), events + [e], mac)
  {
    OthersDoNotMatter(c, w, e, mac);
    OtherEvent(events, e, mac);
    StartedSnoc(events, e, mac);
  }

  lemma StepRemembersOwn(c: Config, w: World, events: seq<Event>, e: Event)
    requires Inv(c, w) && Remembers(w, events, e.mac)
    ensures Remembers(Step(c, w, e), events + [e], e.mac)
  {
    StartedPhase(events, e.mac);
    OwnEvent(events, e);
    StartedSnoc(events, e, e.mac);
  }

  /** Over every run the machines remember what the events say, and only started supplicants have one. */
  lemma {:induction false} RunRemembers(c: Config, events: seq<Event>, mac: Name)
    ensures Remembers(Run(c, events), events, mac)
  {
    if events != [] {
      var (init, e) := (events[..|events| - 1], events[|events| - 1]);
      RunRemembers(c, init, mac);
      RunKeepsInv(c, init);
      if e.mac == mac {
        StepRemembersOwn(c, Run(c, init), init, e);
      } else {
        StepRemembersOther(c, Run(c, init), init, e, mac);
      }
      assert init + [e] == events;
    }
  }

  // ---- what each event adds -----------------------------------------------------------------------

  /** The supplicant's exchange is under way: it has started and has no result yet. */
  ghost predicate UnderWay(c: Config, events: seq<Event>, mac: Name)
  {
    HasStarted(events, mac) && mac !in Run(c, events).results
  }

  /** What is to be sent for its supplicant when an event arrives that is not a check of the timer. */
  ghost function Answer(underWay: bool, events: seq<Event>, e: Event): seq<Action>
  {
    match e
    case ReceiveStart(mac, _) => if HasStarted(events, mac) then [] else [SendEap(mac, None)]
    case ReceiveEap(mac, _, message) =>
      if underWay && PhaseOf(events, mac) == Supplicant then
        [SendRadius(mac, message, IdentityOf(events + [e], mac), RadiusStateOf(events, mac))]
      else []
    case ReceiveReply(mac, _, payload, _, kind) =>
      if underWay && PhaseOf(events, mac) == Radius then
        [SendEap(mac, if kind == AccessReject then Some(Failure(255)) else payload)]
      else []
    case TimerCheck(_, _) => []
  }

  lemma SentForPlus(sent: seq<Action>, more: seq<Action>, mac: Name)
    requires more == [] || (|more| == 1 && more[0].mac == mac)
    ensures SentFor(sent + more, mac) == SentFor(sent, mac) + more
  {
    if more == [] {
      Units(sent);
      Units(SentFor(sent, mac));
    } else {
      assert more == [more[0]];
      SentForSnoc(sent, more[0], mac);
    }
  }

  /** The messages a step sends, in terms of the machine it finds. */
  lemma StepSends(c: Config, w: World, events: seq<Event>, e: Event)
    requires Inv(c, w) && Remembers(w, events, e.mac) && !e.TimerCheck?
    ensures Step(c, w, e).sent == w.sent + Answer(e.mac in w.machines, events, e)
  {
    OwnEvent(events, e);
    Units(w.sent);
  }

  /**
   * At any point of any run, what an event adds to the messages sent for its supplicant: a first start
   * the identity request, an EAP message in the supplicant's turn that message to the server with the
   * identity and the RADIUS state remembered, a reply in the server's turn its payload, or a failure
   * for a reject, to the supplicant; anything else nothing. And nothing for anybody else.
   */
  lemma EventSends(c: Config, events: seq<Event>, e: Event, mac: Name)
    requires !e.TimerCheck?
    ensures SentFor(Run(c, events + [e]).sent, mac)
            == SentFor(Run(c, events).sent, mac) + if e.mac == mac then Answer(UnderWay(c, events, mac), events, e) else []
  {
    var w := Run(c, events);
    RunSnocIs(c, events, e);
    RunKeepsInv(c, events);
    if e.mac == mac {
      RunRemembers(c, events, mac);
      StepSends(c, w, events, e);
      SentForPlus(w.sent, Answer(UnderWay(c, events, mac), events, e), mac);
    } else {
      OthersDoNotMatter(c, w, e, mac);
      Units(SentFor(w.sent, mac));
    }
  }

  lemma RunSnocIs(c: Config, events: seq<Event>, e: Event)
    ensures Run(c, events + [e]) == Step(c, Run(c, events), e)
  {
    Snoc(events, e);
  }

  /** What a check of the timer adds: the last message again, a failure once the retries are used up, or nothing. */
  lemma CheckSends(c: Config, events: seq<Event>, mac: Name, now: Time)
    ensures var (w, v) := (Run(c, events), Run(c, events + [TimerCheck(mac, now)]));
            var (before, after) := (SentFor(w.sent, mac), SentFor(v.sent, mac));
            if mac !in w.machines || !Expired(w.machines[mac], now) then after == before
            else if w.machines[mac].retries < c.maxRetries then
              LastFor(w.sent, mac).Some? && after == before + [LastFor(w.sent, mac).value]
            else after == before + [SendEap(mac, Some(Failure(255)))]
  {
    var (w, e) := (Run(c, events), TimerCheck(mac, now));
    RunSnocIs(c, events, e);
    RunKeepsInv(c, events);
    Units(w.sent);
    if mac in w.machines {
      SentForPlus(w.sent, OnTimer(c, mac, w.machines[mac], now).actions, mac);
      Units(SentFor(w.sent, mac));
    }
  }
}
