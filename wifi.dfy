/** Station-mode Wi-Fi association with bounded retry.

    The firmware reacts to three notifications of the Wi-Fi/IP stack: the
    station has started, the station was disconnected, and the station got an
    IP address.  A function-static retry counter bounds the number of
    reconnection attempts by `MaxRetry`; two bits of an event group signal
    "connected" and "connection failed" to the start-up code, which blocks
    until one of them is set and then unregisters the handler.
 */
module WiFiStation {

  /** WIFI_MAX_RETRY */
  const MaxRetry: int := 3

  /** The two event bases the handler is registered for. */
  datatype EventBase = WifiEvent | IpEvent

  /** A notification delivered to the handler.  `Other` stands for every
      (base, id) pair that is none of the three the handler tests for. */
  datatype Event =
    | StaStart
    | StaDisconnected
    | StaGotIp
    | Other(base: EventBase, id: int)

  /** The state the handler reads and writes: the static retry counter, the
      two status bits of the event group, and the number of connect calls
      issued to the driver so far. */
  datatype Status = Status(retryCounter: int, connected: bool, failed: bool, connectAttempts: nat)

  /** The state before the first notification: counter statically zero,
      freshly created event group, no connect call yet. */
  const Initial: Status := Status(0, false, false, 0)

  /** The counter stays within its bound. */
  predicate Valid(s: Status) {
    0 <= s.retryCounter <= MaxRetry
  }

  /** The blocking wait for CONNECTED or CONN_FAILED is over. */
  predicate Done(s: Status) {
    s.connected || s.failed
  }

  /** One invocation of the event handler. */
  function Step(s: Status, e: Event): (r: Status)
    // the bound is kept
    ensures Valid(s) ==> Valid(r)
    // status bits are only ever set, never cleared
    ensures s.connected ==> r.connected
    ensures s.failed ==> r.failed
    // CONNECTED is raised exactly by an address notification, which clears the counter
    ensures r.connected <==> s.connected || e == StaGotIp
    ensures e == StaGotIp ==> r.retryCounter == 0
    // a disconnect consumes one retry while any remain, and none after that
    ensures e == StaDisconnected ==>
              r.retryCounter == if s.retryCounter < MaxRetry then s.retryCounter + 1 else s.retryCounter
    // CONN_FAILED is raised exactly by a disconnect once the retries are used up
    ensures r.failed <==> s.failed || (e == StaDisconnected && s.retryCounter >= MaxRetry)
    // a connect call is issued on start, and on a disconnect while retries remain
    ensures r.connectAttempts == s.connectAttempts + 1 <==>
              e == StaStart || (e == StaDisconnected && s.retryCounter < MaxRetry)
    ensures r.connectAttempts == s.connectAttempts || r.connectAttempts == s.connectAttempts + 1
    // the counter moves only on a retry or a reset
    ensures r.retryCounter != s.retryCounter ==>
              (e == StaDisconnected && r.retryCounter == s.retryCounter + 1) || e == StaGotIp
    // at most one bit is raised by one notification
    ensures !Done(s) && Done(r) ==> r.connected != r.failed
  {
    match e
    case StaStart =>
      s.(connectAttempts := s.connectAttempts + 1)
    case StaDisconnected =>
      if s.retryCounter < MaxRetry then
        s.(connectAttempts := s.connectAttempts + 1, retryCounter := s.retryCounter + 1)
      else
        s.(failed := true)
    case StaGotIp =>
      s.(retryCounter := 0, connected := true)
    case Other(_, _) =>
      s
  }

  /** The handler applied to a serialised sequence of notifications. */
  function Run(s: Status, events: seq<Event>): (r: Status)
    decreases |events|
    ensures Valid(s) ==> Valid(r)
    ensures s.connected ==> r.connected
    ensures s.failed ==> r.failed
    ensures Done(s) ==> Done(r)
    ensures s.connectAttempts <= r.connectAttempts <= s.connectAttempts + |events|
  {
    if events == [] then s else Run(Step(s, events[0]), events[1..])
  }

  /** Running a sequence and then one more notification is one more step. */
  lemma {:induction false} RunSnoc(s: Status, events: seq<Event>, e: Event)
    ensures Run(s, events + [e]) == Step(Run(s, events), e)
    decreases |events|
  {
    if events == [] {
      assert events + [e] == [e];
    } else {
      assert (events + [e])[1..] == events[1..] + [e];
      RunSnoc(Step(s, events[0]), events[1..], e);
    }
  }

  /** Running two sequences one after the other. */
  lemma {:induction false} RunAppend(s: Status, a: seq<Event>, b: seq<Event>)
    ensures Run(s, a + b) == Run(Run(s, a), b)
    decreases |a|
  {
    if a == [] {
      assert a + b == b;
    } else {
      assert (a + b)[1..] == a[1..] + b;
      RunAppend(Step(s, a[0]), a[1..], b);
    }
  }

  /** `n` copies of one notification. */
  function Repeat(e: Event, n: nat): (r: seq<Event>)
    ensures |r| == n
    ensures forall k :: 0 <= k < n ==> r[k] == e
  {
    if n == 0 then [] else [e] + Repeat(e, n - 1)
  }

  function Min(a: int, b: int): (m: int) {
    if a <= b then a else b
  }

  /** `n` consecutive disconnects: the first `MaxRetry - c` of them each
      retry once, every later one raises CONN_FAILED and issues nothing. */
  lemma {:induction false} Disconnects(s: Status, n: nat)
    requires Valid(s)
    ensures Run(s, Repeat(StaDisconnected, n)) ==
            s.(retryCounter := s.retryCounter + Min(n, MaxRetry - s.retryCounter),
               connectAttempts := s.connectAttempts + Min(n, MaxRetry - s.retryCounter),
               failed := s.failed || n > MaxRetry - s.retryCounter)
    decreases n
  {
    if n > 0 {
      var rest := Repeat(StaDisconnected, n - 1);
      assert Repeat(StaDisconnected, n)[1..] == rest;
      Disconnects(Step(s, StaDisconnected), n - 1);
    }
  }

  /** Once the retries are used up no disconnect ever causes another
      connect call. */
  lemma {:induction false} NoConnectAfterExhaustion(s: Status, events: seq<Event>)
    requires Valid(s) && s.retryCounter == MaxRetry
    requires forall k :: 0 <= k < |events| ==> events[k] == StaDisconnected
    ensures Run(s, events) == s.(failed := s.failed || events != [])
    decreases |events|
  {
    if events != [] {
      NoConnectAfterExhaustion(Step(s, events[0]), events[1..]);
    }
  }

  /** From start-up, a start notification followed by four disconnects
      issues four connect calls (the first plus three retries); CONN_FAILED
      is raised by the fourth disconnect and not before. */
  lemma StartThenFourDisconnects()
    ensures Run(Initial, [StaStart] + Repeat(StaDisconnected, 3)) == Status(3, false, false, 4)
    ensures Run(Initial, [StaStart] + Repeat(StaDisconnected, 4)) == Status(3, false, true, 4)
  {
    var afterStart := Status(0, false, false, 1);
    assert Run(Initial, [StaStart]) == afterStart;
    RunAppend(Initial, [StaStart], Repeat(StaDisconnected, 3));
    RunAppend(Initial, [StaStart], Repeat(StaDisconnected, 4));
    Disconnects(afterStart, 3);
    Disconnects(afterStart, 4);
  }

  /** An address notification after any number of retries connects and
      clears the counter. */
  lemma GotIpAfterRetries(s: Status, n: nat)
    requires s == Status(0, false, false, 1) && n <= MaxRetry
    ensures Run(s, Repeat(StaDisconnected, n) + [StaGotIp]) == Status(0, true, false, 1 + n)
  {
    RunSnoc(s, Repeat(StaDisconnected, n), StaGotIp);
    Disconnects(s, n);
  }

  /** The handler's static and shared state, updated in place. */
  class Station {
    var retryCounter: int
    var connected: bool
    var failed: bool
    var connectAttempts: nat

    function State(): Status
      reads this
    {
      Status(retryCounter, connected, failed, connectAttempts)
    }

    /** Counter zero (static initialiser), fresh event group, no call yet. */
    constructor ()
      ensures State() == Initial
    {
      retryCounter := 0;
      connected := false;
      failed := false;
      connectAttempts := 0;
    }

    /** WiFiEventHandler. */
    method HandleEvent(e: Event)
      modifies this
      ensures State() == Step(old(State()), e)
    {
      if e == StaStart {
        connectAttempts := connectAttempts + 1;
      } else if e == StaDisconnected {
        if retryCounter < MaxRetry {
          connectAttempts := connectAttempts + 1;
          retryCounter := retryCounter + 1;
        } else {
          failed := true;
        }
      } else if e == StaGotIp {
        retryCounter := 0;
        connected := true;
      }
    }
  }

  /** The rendezvous of WiFiInitStation: notifications are handled in order
      until CONNECTED or CONN_FAILED is set; the handler is then unregistered,
      so the rest of `events` is never seen.  `consumed` is how many
      notifications were handled; if no bit is ever set, all of them were
      handled and the wait has not ended. */
  method Associate(events: seq<Event>) returns (final: Status, consumed: nat)
    ensures consumed <= |events|
    ensures final == Run(Initial, events[..consumed])
    ensures Done(final) || consumed == |events|
    ensures forall j :: 0 <= j < consumed ==> !Done(Run(Initial, events[..j]))
    ensures Valid(final)
    ensures Done(final) ==> final.connected != final.failed
    ensures final.connected ==> final.retryCounter == 0
    ensures final.failed ==> final.retryCounter == MaxRetry
  {
    var station := new Station();
    consumed := 0;
    while consumed < |events| && !Done(station.State())
      invariant consumed <= |events|
      invariant station.State() == Run(Initial, events[..consumed])
      invariant forall j :: 0 <= j < consumed ==> !Done(Run(Initial, events[..j]))
      invariant Valid(station.State())
      invariant Done(station.State()) ==> station.connected != station.failed
      invariant station.connected ==> station.retryCounter == 0
      invariant station.failed ==> station.retryCounter == MaxRetry
      decreases |events| - consumed
    {
      ghost var before := station.State();
      station.HandleEvent(events[consumed]);
      assert events[..consumed + 1] == events[..consumed] + [events[consumed]];
      RunSnoc(Initial, events[..consumed], events[consumed]);
      assert !Done(before);
      consumed := consumed + 1;
    }
    final := station.State();
  }
}
