/**
 * Debouncing of port state changes: an up is delivered at once, a down only after a quiet period,
 * and any new event for the port cancels the timer of the last one. Events and timer expiries come
 * in any order, each atomic.
 */
module Debounce {
  import opened Octets

  type Key = string  // datapath and port

  /** A started timer: the port it is for, and the time it is due. */
  datatype Timer = Timer(key: Key, due: nat)

  /**
   * `table` remembers the last timer of each port, cancelled, expired or not; `live` are those
   * neither cancelled nor expired. `delivered` is every port state put on the output queue.
   */
  datatype State = State(table: map<Key, nat>, live: map<nat, Timer>, next: nat, delivered: seq<(Key, bool)>)

  datatype Event = Raw(key: Key, active: bool, now: nat) | Expire(id: nat, now: nat)

  const START := State(map[], map[], 0, [])

  function Deliver(s: State, key: Key, active: bool): State
  {
    s.(delivered := s.delivered + [(key, active)])
  }

  function OnRaw(period: nat, s: State, key: Key, active: bool, now: nat): State
  {
    if period == 0 then Deliver(s, key, active)
    else
      var t := if key in s.table then s.(live := s.live - {s.table[key]}) else s;
      if active then Deliver(t, key, active)
      else t.(live := t.live[t.next := Timer(key, now + period)], table := t.table[key := t.next], next := t.next + 1)
  }

  /** A timer that is not live, or not due yet, does not expire. */
  function OnExpire(s: State, id: nat, now: nat): State
  {
    if id !in s.live || now < s.live[id].due then s
    else Deliver(s.(live := s.live - {id}), s.live[id].key, false)
  }

  function Step(period: nat, s: State, e: Event): State
  {
    match e
    case Raw(key, active, now) => OnRaw(period, s, key, active, now)
    case Expire(id, now) => OnExpire(s, id, now)
  }

  function Run(period: nat, events: seq<Event>): State
  {
    if events == [] then START
    else Step(period, Run(period, events[..|events| - 1]), events[|events| - 1])
  }

  class Debouncer {
    const period: nat
    var portTimers: map<Key, nat>
    var live: map<nat, Timer>
    var next: nat
    var debouncedQueue: seq<(Key, bool)>

    constructor (period: nat)
      ensures this.period == period && Value() == START
    {
      this.period := period;
      portTimers, live, next, debouncedQueue := map[], map[], 0, [];
    }

    function Value(): State
      reads this
    {
      State(portTimers, live, next, debouncedQueue)
    }

    method HandleDebounce(key: Key, active: bool)
      modifies `debouncedQueue
      ensures Value() == Deliver(old(Value()), key, active)
    {
      debouncedQueue := debouncedQueue + [(key, active)];
    }

    method DebouncePortEvent(key: Key, active: bool, now: nat)
      modifies this
      ensures Value() == OnRaw(period, old(Value()), key, active, now)
    {
      if period == 0 {
        HandleDebounce(key, active);
        return;
      }
      if key in portTimers {
        live := live - {portTimers[key]};
      }
      if active {
        HandleDebounce(key, active);
        return;
      }
      var timer := next;
      next := next + 1;
      live := live[timer := Timer(key, now + period)];
      portTimers := portTimers[key := timer];
    }

    method TimerExpires(id: nat, now: nat)
      modifies this
      ensures Value() == OnExpire(old(Value()), id, now)
    {
      if id in live && now >= live[id].due {
        var key := live[id].key;
        live := live - {id};
        HandleDebounce(key, false);
      }
    }
  }

  // ---- safety over all interleavings ------------------------------------------------------------

  ghost predicate Inv(period: nat, s: State)
  {
    && (forall id :: id in s.live ==> s.live[id].key in s.table && s.table[s.live[id].key] == id && id < s.next)
    && (forall k :: k in s.table ==> s.table[k] < s.next)
    && (forall k, l :: k in s.table && l in s.table && k != l ==> s.table[k] != s.table[l])
    && (period == 0 ==> s.live == map[])
  }

  lemma {:induction false} RunKeepsInv(period: nat, events: seq<Event>)
    ensures Inv(period, Run(period, events))
  {
    if events != [] {
      RunKeepsInv(period, events[..|events| - 1]);
    }
  }

  /** At most one live timer per port, at any point of any run. */
  lemma OneTimerPerPort(period: nat, events: seq<Event>, a: nat, b: nat)
    requires var live := Run(period, events).live; a in live && b in live && live[a].key == live[b].key
    ensures a == b
  {
    RunKeepsInv(period, events);
  }

  function LastDelivered(delivered: seq<(Key, bool)>, key: Key): Option<bool>
  {
    if delivered == [] then None
    else
      var last := delivered[|delivered| - 1];
      if last.0 == key then Some(last.1) else LastDelivered(delivered[..|delivered| - 1], key)
  }

  function LastRaw(events: seq<Event>, key: Key): Option<bool>
  {
    if events == [] then None
    else
      var last := events[|events| - 1];
      if last.Raw? && last.key == key then Some(last.active) else LastRaw(events[..|events| - 1], key)
  }

  ghost predicate Pending(s: State, key: Key)
  {
    exists id :: id in s.live && s.live[id].key == key
  }

  lemma DeliveredSnoc(delivered: seq<(Key, bool)>, key: Key, active: bool, other: Key)
    ensures LastDelivered(delivered + [(key, active)], other)
            == if key == other then Some(active) else LastDelivered(delivered, other)
  {
    assert (delivered + [(key, active)])[..|delivered|] == delivered;
  }

  /**
   * With no timer pending for a port, the last state delivered is the last state seen; with one
   * pending, the last state seen is down.
   */
  lemma {:induction false} SettlesToLastRaw(period: nat, events: seq<Event>, key: Key)
    ensures var s := Run(period, events);
            if Pending(s, key) then LastRaw(events, key) == Some(false)
            else LastDelivered(s.delivered, key) == LastRaw(events, key)
  {
    if events != [] {
      var (n, e) := (|events| - 1, events[|events| - 1]);
      var (s, t) := (Run(period, events[..n]), Run(period, events));
      SettlesToLastRaw(period, events[..n], key);
      RunKeepsInv(period, events[..n]);
      RunKeepsInv(period, events);
      match e
      case Raw(k, active, now) =>
        RawPending(period, s, k, active, now, key);
        DeliveredSnoc(s.delivered, k, active, key);
      case Expire(id, now) =>
        if id in s.live && now >= s.live[id].due {
          ExpirePending(period, s, id, key);
          DeliveredSnoc(s.delivered, s.live[id].key, false, key);
        }
    }
  }

  /** A raw event decides by itself whether its port has a timer, and no other port is touched. */
  lemma RawPending(period: nat, s: State, k: Key, active: bool, now: nat, key: Key)
    requires Inv(period, s)
    ensures var t := OnRaw(period, s, k, active, now);
            Pending(t, key) <==> if key == k then period > 0 && !active else Pending(s, key)
  {
    var t := OnRaw(period, s, k, active, now);
    if key != k && Pending(s, key) {
      var id :| id in s.live && s.live[id].key == key;
      assert id in t.live && t.live[id].key == key;
    }
    if key == k && period > 0 && !active {
      assert t.live[s.next].key == key;
    }
  }

  lemma ExpirePending(period: nat, s: State, id: nat, key: Key)
    requires Inv(period, s) && id in s.live
    ensures var t := s.(live := s.live - {id});
            Pending(t, key) <==> key != s.live[id].key && Pending(s, key)
  {
    var t := s.(live := s.live - {id});
    if key != s.live[id].key && Pending(s, key) {
      var other :| other in s.live && s.live[other].key == key;
      assert other in t.live && t.live[other].key == key;
    }
  }

  /** Raw event `j` reported the port down, and nothing was heard from the port up to event `k`. */
  ghost predicate QuietSince(events: seq<Event>, j: nat, k: nat, key: Key)
  {
    && j < k <= |events|
    && events[j].Raw? && events[j].key == key && !events[j].active
    && forall i :: j < i < k ==> !(events[i].Raw? && events[i].key == key)
  }

  lemma {:induction false} LiveTimerWasQuiet(period: nat, events: seq<Event>, id: nat) returns (j: nat)
    requires id in Run(period, events).live
    ensures QuietSince(events, j, |events|, Run(period, events).live[id].key)
    ensures Run(period, events).live[id].due == events[j].now + period
  {
    var n := |events| - 1;
    var s := Run(period, events[..n]);
    RunKeepsInv(period, events[..n]);
    if id in s.live && s.live[id] == Run(period, events).live[id] && !(events[n].Raw? && events[n].key == s.live[id].key) {
      j := LiveTimerWasQuiet(period, events[..n], id);
      assert forall i :: 0 <= i < n ==> events[..n][i] == events[i];
    } else {
      j := n;
    }
  }

  /**
   * Every down that was delivered was reported at least the debounce period before its delivery,
   * and nothing was heard from the port in between.
   */
  lemma {:induction false} DownOnlyAfterQuietPeriod(period: nat, events: seq<Event>, i: nat) returns (j: nat, k: nat)
    requires period > 0 && i < |Run(period, events).delivered| && !Run(period, events).delivered[i].1
    ensures k < |events| && events[k].Expire?
    ensures QuietSince(events, j, k, Run(period, events).delivered[i].0)
    ensures events[k].now >= events[j].now + period
  {
    var n := |events| - 1;
    var s := Run(period, events[..n]);
    if i < |s.delivered| {
      assert Run(period, events).delivered[i] == s.delivered[i];
      j, k := DownOnlyAfterQuietPeriod(period, events[..n], i);
      assert forall x :: 0 <= x < n ==> events[..n][x] == events[x];
    } else {
      k := n;
      j := LiveTimerWasQuiet(period, events[..n], events[n].id);
      assert forall x :: 0 <= x < n ==> events[..n][x] == events[x];
    }
  }

  // ---- what is delivered ------------------------------------------------------------------------

  /** What an event puts on the output queue: an up at once, a down without a period or when its timer is due. */
  lemma {:induction false} EventDelivers(period: nat, events: seq<Event>, e: Event)
    ensures var (s, t) := (Run(period, events), Run(period, events + [e]));
            t.delivered == s.delivered +
              match e
              case Raw(key, active, _) => if active then [(key, true)] else if period == 0 then [(key, false)] else []
              case Expire(id, now) => if id in s.live && now >= s.live[id].due then [(s.live[id].key, false)] else []
  {
    Snoc(events, e);
    Units(Run(period, events).delivered);
  }

  /** The ports delivered as up, in order. */
  function Ups(delivered: seq<(Key, bool)>): seq<Key>
  {
    if delivered == [] then []
    else
      var n := |delivered| - 1;
      Ups(delivered[..n]) + if delivered[n].1 then [delivered[n].0] else []
  }

  /** The ports reported up, in order. */
  function RawUps(events: seq<Event>): seq<Key>
  {
    if events == [] then []
    else
      var n := |events| - 1;
      RawUps(events[..n]) + if events[n].Raw? && events[n].active then [events[n].key] else []
  }

  lemma {:induction false} UpsSnoc(delivered: seq<(Key, bool)>, more: seq<(Key, bool)>)
    requires |more| <= 1
    ensures Ups(delivered + more) == Ups(delivered) + if more != [] && more[0].1 then [more[0].0] else []
  {
    if more == [] {
      Units(delivered);
      Units(Ups(delivered));
    } else {
      assert more == [more[0]];
      Snoc(delivered, more[0]);
    }
  }

  /** Over every run, the ups delivered are the ups reported: each once, in order, and no others. */
  lemma {:induction false} UpsAreRawUps(period: nat, events: seq<Event>)
    ensures Ups(Run(period, events).delivered) == RawUps(events)
  {
    if events != [] {
      var (init, e) := (events[..|events| - 1], events[|events| - 1]);
      UpsAreRawUps(period, init);
      EventDelivers(period, init, e);
      assert init + [e] == events;
      var s := Run(period, init);
      UpsSnoc(s.delivered, Run(period, events).delivered[|s.delivered|..]);
      assert s.delivered + Run(period, events).delivered[|s.delivered|..] == Run(period, events).delivered;
      Units(RawUps(init));
    }
  }

  /** A report rules its port's timers: a down with a period leaves one, due exactly then; anything else none. */
  lemma RawArms(period: nat, s: State, key: Key, active: bool, now: nat)
    requires Inv(period, s)
    ensures var t := OnRaw(period, s, key, active, now);
            && (forall id :: id in t.live && t.live[id].key == key ==> period > 0 && !active && t.live[id].due == now + period)
            && (period > 0 && !active ==> exists id :: id in t.live && t.live[id] == Timer(key, now + period))
            && (forall id :: id in s.live && s.live[id].key != key ==> id in t.live && t.live[id] == s.live[id])
  {
    var t := OnRaw(period, s, key, active, now);
    if period > 0 && !active {
      assert t.live[s.next] == Timer(key, now + period);
    }
  }

  /** A due timer expires once: it delivers its down and is gone, and no other timer is touched. */
  lemma ExpiresOnce(s: State, id: nat, now: nat)
    requires id in s.live && now >= s.live[id].due
    ensures var t := OnExpire(s, id, now);
            t.delivered == s.delivered + [(s.live[id].key, false)] && t.live == s.live - {id} && OnExpire(t, id, now) == t
  {
  }
}
