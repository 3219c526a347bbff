/**
  Transaction ids and the table of requests awaiting an answer
  (src/rpc/socket.rs and src/rpc/socket/inflight_requests.rs).

  `Socket.sent` counts every request ever sent; the `next_tid` of the source is
  that count modulo 2^32. Times are milliseconds, read once per call.
 */
module Sockets {
  import opened Bep42

  const TID_SPACE: nat := 0x1_0000_0000
  const INFLIGHT_CLEANUP_INTERVAL: int := 200

  type Tid = t: nat | t < TID_SPACE

  function Wrap(n: nat): Tid {
    n % TID_SPACE
  }

  /** The id of the `i`th request after `sent` others. */
  function Nth(sent: nat, i: nat): Tid {
    Wrap(sent + i)
  }

  lemma NthApart(sent: nat, i: nat, j: nat)
    requires i < j < i + TID_SPACE
    ensures Nth(sent, i) != Nth(sent, j)
  {
  }

  datatype InflightRequest = InflightRequest(to: Address, sentAt: int)

  type Requests = map<Tid, InflightRequest>

  /** `does_match`: same port, and same IP unless the request went to 0.0.0.0. */
  predicate DoesMatch(request: InflightRequest, from: Address) {
    request.to.port == from.port && (request.to.ip == 0 || request.to.ip == from.ip)
  }

  /** `contains`: sent, not yet answered and not expired. */
  predicate Live(requests: Requests, timeout: nat, tid: Tid, now: int) {
    tid in requests && now - requests[tid].sentAt < timeout
  }

  /** `remove`: the remaining table and whether the answer is accepted. */
  function Remove(requests: Requests, timeout: nat, tid: Tid, from: Address, now: int): (r: (Requests, bool)) {
    if tid !in requests then (requests, false)
    else if now - requests[tid].sentAt >= timeout then (requests - {tid}, false)
    else if !DoesMatch(requests[tid], from) then (requests, false)
    else (requests - {tid}, true)
  }

  function Cleanup(requests: Requests, timeout: nat, now: int): Requests {
    map t | t in requests && requests[t].sentAt > now - timeout :: requests[t]
  }

  datatype Socket = Socket(sent: nat, requests: Requests, timeout: nat, serverMode: bool, lastCleanup: int)

  /** `request`: the socket afterwards; the id used is `Wrap(s.sent)`. */
  function Request(s: Socket, to: Address, now: int): Socket {
    s.(sent := s.sent + 1, requests := s.requests[Wrap(s.sent) := InflightRequest(to, now)])
  }

  predicate Inflight(s: Socket, tid: Tid, now: int) {
    Live(s.requests, s.timeout, tid, now)
  }

  /** The cleanup cadence at the head of `recv_from`. */
  function Tidy(s: Socket, now: int): Socket {
    if now - s.lastCleanup > INFLIGHT_CLEANUP_INTERVAL
    then s.(lastCleanup := now, requests := Cleanup(s.requests, s.timeout, now))
    else s
  }

  /** A decoded datagram, as far as the socket looks at it. */
  datatype Datagram = Datagram(isRequest: bool, tid: Tid, from: Address)

  /** `recv_from` after a datagram was read: deliver it or not. */
  function Receive(s: Socket, d: Datagram, now: int): (r: (Socket, bool)) {
    var s := Tidy(s, now);
    if d.from.port == 0 then (s, false)
    else if d.isRequest then (s, true)
    else
      var (requests, accepted) := Remove(s.requests, s.timeout, d.tid, d.from, now);
      (s.(requests := requests), accepted)
  }

  /** What is delivered: every request, and an answer exactly when its id is waiting and not yet
      expired and it comes from the port, and the IP unless that was 0.0.0.0, the request was
      sent to; nothing from port 0. An accepted answer is forgotten. */
  lemma DeliveredMeans(s: Socket, d: Datagram, now: int)
    ensures Receive(s, d, now).1 <==>
            d.from.port != 0 &&
            (d.isRequest ||
             (&& d.tid in s.requests && now - s.requests[d.tid].sentAt < s.timeout
              && s.requests[d.tid].to.port == d.from.port
              && (s.requests[d.tid].to.ip == 0 || s.requests[d.tid].to.ip == d.from.ip)))
    ensures Receive(s, d, now).1 && !d.isRequest ==> d.tid !in Receive(s, d, now).0.requests
  {
  }

  // --- cleanup is invisible ---

  /** From `now` on, nobody can tell the two tables apart. */
  predicate Equivalent(a: Requests, b: Requests, timeout: nat, now: int) {
    forall t: Tid :: && (Live(a, timeout, t, now) <==> Live(b, timeout, t, now))
                && (Live(a, timeout, t, now) ==> a[t] == b[t])
  }

  lemma CleanupEquivalent(a: Requests, timeout: nat, now: int)
    ensures Equivalent(Cleanup(a, timeout, now), a, timeout, now)
  {
  }

  lemma EquivalentLater(a: Requests, b: Requests, timeout: nat, now: int, later: int)
    requires Equivalent(a, b, timeout, now) && now <= later
    ensures Equivalent(a, b, timeout, later)
  {
    forall t: Tid ensures Live(a, timeout, t, later) <==> Live(b, timeout, t, later) {
      assert Live(a, timeout, t, now) <==> Live(b, timeout, t, now);
    }
  }

  lemma RemoveEquivalent(a: Requests, b: Requests, timeout: nat, tid: Tid, from: Address, now: int)
    requires Equivalent(a, b, timeout, now)
    ensures Remove(a, timeout, tid, from, now).1 == Remove(b, timeout, tid, from, now).1
    ensures Equivalent(Remove(a, timeout, tid, from, now).0, Remove(b, timeout, tid, from, now).0, timeout, now)
  {
    assert Live(a, timeout, tid, now) <==> Live(b, timeout, tid, now);
    var a', b' := Remove(a, timeout, tid, from, now).0, Remove(b, timeout, tid, from, now).0;
    forall t: Tid ensures (Live(a', timeout, t, now) <==> Live(b', timeout, t, now)) && (Live(a', timeout, t, now) ==> a'[t] == b'[t]) {
      assert Live(a, timeout, t, now) <==> Live(b, timeout, t, now);
    }
  }

  /** What can happen to a socket; every event carries its time. */
  datatype Event =
    | Send(to: Address, now: int)
    | Ask(tid: Tid, now: int)
    | Answer(tid: Tid, from: Address, now: int)
    | Sweep(now: int)

  function Step(s: Socket, e: Event): (r: (Socket, seq<bool>)) {
    match e
    case Send(to, now) => (Request(s, to, now), [])
    case Ask(tid, now) => (s, [Inflight(s, tid, now)])
    case Answer(tid, from, now) =>
      var (requests, accepted) := Remove(s.requests, s.timeout, tid, from, now);
      (s.(requests := requests), [accepted])
    case Sweep(now) => (s.(requests := Cleanup(s.requests, s.timeout, now)), [])
  }

  /** Every answer the socket gives over a run of events. */
  function Answers(s: Socket, events: seq<Event>): seq<bool>
    decreases |events|
  {
    if events == [] then [] else Step(s, events[0]).1 + Answers(Step(s, events[0]).0, events[1..])
  }

  function WithoutSweeps(events: seq<Event>): seq<Event> {
    if events == [] then []
    else (if events[0].Sweep? then [] else [events[0]]) + WithoutSweeps(events[1..])
  }

  predicate InOrder(events: seq<Event>, from: int) {
    events != [] ==> from <= events[0].now && InOrder(events[1..], events[0].now)
  }

  lemma StepEquivalent(s: Socket, u: Socket, e: Event)
    requires s.sent == u.sent && s.timeout == u.timeout && Equivalent(s.requests, u.requests, s.timeout, e.now)
    ensures Step(s, e).1 == Step(u, e).1
    ensures var s', u' := Step(s, e).0, Step(u, e).0;
            s'.sent == u'.sent && s'.timeout == u'.timeout == s.timeout &&
            Equivalent(s'.requests, u'.requests, s.timeout, e.now)
    ensures e.Sweep? ==> Equivalent(Step(s, e).0.requests, u.requests, s.timeout, e.now)
  {
    hide Remove, Cleanup;
    match e
    case Send(to, now) =>
      forall t: Tid
        ensures Live(Step(s, e).0.requests, s.timeout, t, now) <==> Live(Step(u, e).0.requests, s.timeout, t, now)
      {
        assert Live(s.requests, s.timeout, t, now) <==> Live(u.requests, s.timeout, t, now);
      }
    case Ask(tid, now) =>
    case Answer(tid, from, now) =>
      RemoveEquivalent(s.requests, u.requests, s.timeout, tid, from, now);
    case Sweep(now) =>
      CleanupEquivalent(s.requests, s.timeout, now);
      CleanupEquivalent(u.requests, s.timeout, now);
  }

  lemma {:induction false} SweepsAreInvisibleFrom(s: Socket, u: Socket, events: seq<Event>, now: int)
    requires s.sent == u.sent && s.timeout == u.timeout && InOrder(events, now)
    requires Equivalent(s.requests, u.requests, s.timeout, now)
    ensures Answers(s, events) == Answers(u, WithoutSweeps(events))
    decreases |events|
  {
    hide Equivalent, Step;
    if events != [] {
      var e := events[0];
      EquivalentLater(s.requests, u.requests, s.timeout, now, e.now);
      StepEquivalent(s, u, e);
      var s' := Step(s, e).0;
      if e.Sweep? {
        SweepKeepsCounters(s, e);
        SweepsAreInvisibleFrom(s', u, events[1..], e.now);
        assert WithoutSweeps(events) == WithoutSweeps(events[1..]);
      } else {
        SweepsAreInvisibleFrom(s', Step(u, e).0, events[1..], e.now);
        assert WithoutSweeps(events)[1..] == WithoutSweeps(events[1..]);
      }
    }
  }

  lemma SweepKeepsCounters(s: Socket, e: Event)
    requires e.Sweep?
    ensures Step(s, e).0.sent == s.sent && Step(s, e).0.timeout == s.timeout && Step(s, e).1 == []
  {
  }

  /** Over every run, the periodic cleanup changes no answer of `contains` or `remove`. */
  lemma SweepsAreInvisible(s: Socket, events: seq<Event>, now: int)
    requires InOrder(events, now)
    ensures Answers(s, events) == Answers(s, WithoutSweeps(events))
  {
    SweepsAreInvisibleFrom(s, s, events, now);
  }

  // --- an id is accepted at most as often as it was sent ---

  function RunEvents(s: Socket, events: seq<Event>): Socket
    decreases |events|
  {
    if events == [] then s else RunEvents(Step(s, events[0]).0, events[1..])
  }

  /** Accepted answers carrying `tid`. */
  function Accepted(s: Socket, events: seq<Event>, tid: Tid): nat
    decreases |events|
  {
    if events == [] then 0
    else
      (if events[0].Answer? && events[0].tid == tid && Step(s, events[0]).1 == [true] then 1 else 0) +
      Accepted(Step(s, events[0]).0, events[1..], tid)
  }

  /** Requests that were given the id `tid`. */
  function SentAs(s: Socket, events: seq<Event>, tid: Tid): nat
    decreases |events|
  {
    if events == [] then 0
    else
      (if events[0].Send? && Wrap(s.sent) == tid then 1 else 0) + SentAs(Step(s, events[0]).0, events[1..], tid)
  }

  function Waiting(s: Socket, tid: Tid): nat {
    if tid in s.requests then 1 else 0
  }

  lemma {:induction false} AcceptedAtMostSent(s: Socket, events: seq<Event>, tid: Tid)
    ensures Accepted(s, events, tid) + Waiting(RunEvents(s, events), tid) <= SentAs(s, events, tid) + Waiting(s, tid)
    decreases |events|
  {
    if events != [] {
      AcceptedAtMostSent(Step(s, events[0]).0, events[1..], tid);
    }
  }

  lemma {:induction false} SentAsOnce(s: Socket, events: seq<Event>, tid: Tid, n: nat)
    requires s.sent <= n < s.sent + TID_SPACE && Wrap(n) == tid
    requires RunEvents(s, events).sent <= s.sent + TID_SPACE
    ensures SentAs(s, events, tid) <= 1
    ensures RunEvents(s, events).sent <= n ==> SentAs(s, events, tid) == 0
    decreases |events|
  {
    hide Remove, Cleanup;
    SentGrows(s, events);
    if events != [] {
      var s' := Step(s, events[0]).0;
      SentGrows(s', events[1..]);
      if s'.sent <= n {
        SentAsOnce(s', events[1..], tid, n);
      } else {
        SentAsNever(s', events[1..], tid, n);
      }
    }
  }

  lemma {:induction false} SentGrows(s: Socket, events: seq<Event>)
    ensures s.sent <= RunEvents(s, events).sent
    decreases |events|
  {
    hide Remove, Cleanup;
    if events != [] { SentGrows(Step(s, events[0]).0, events[1..]); }
  }

  lemma {:induction false} SentAsNever(s: Socket, events: seq<Event>, tid: Tid, n: nat)
    requires n < s.sent && Wrap(n) == tid && RunEvents(s, events).sent <= n + TID_SPACE
    ensures SentAs(s, events, tid) == 0
    decreases |events|
  {
    hide Remove, Cleanup;
    if events != [] {
      SentGrows(Step(s, events[0]).0, events[1..]);
      SentAsNever(Step(s, events[0]).0, events[1..], tid, n);
    }
  }

  /** While fewer than 2^32 requests go out, every id is accepted at most once. */
  lemma AcceptedAtMostOnce(s: Socket, events: seq<Event>, tid: Tid)
    requires tid !in s.requests
    requires RunEvents(s, events).sent <= s.sent + TID_SPACE
    ensures Accepted(s, events, tid) <= 1
  {
    hide RunEvents, Accepted;
    var n := s.sent + (tid - s.sent) % TID_SPACE;
    assert Wrap(n) == tid;
    SentAsOnce(s, events, tid, n);
    AcceptedAtMostSent(s, events, tid);
  }

  // --- the mutable objects ---

  class InflightRequests {
    var requests: Requests
    const timeout: nat

    constructor (timeout: nat)
      ensures this.timeout == timeout && requests == map[]
    {
      this.timeout := timeout;
      requests := map[];
    }

    method Add(tid: Tid, to: Address, now: int)
      modifies this
      ensures requests == old(requests)[tid := InflightRequest(to, now)]
    {
      requests := requests[tid := InflightRequest(to, now)];
    }

    method Contains(tid: Tid, now: int) returns (r: bool)
      ensures r <==> Live(requests, timeout, tid, now)
      ensures r <==> tid in requests && now - requests[tid].sentAt < timeout
    {
      if tid in requests {
        return now - requests[tid].sentAt < timeout;
      }
      return false;
    }

    /** Accepts exactly a live id answered from a matching address, and then forgets it. */
    method Take(tid: Tid, from: Address, now: int) returns (accepted: bool)
      modifies this
      ensures accepted <==>
                && tid in old(requests) && now - old(requests)[tid].sentAt < timeout
                && old(requests)[tid].to.port == from.port
                && (old(requests)[tid].to.ip == 0 || old(requests)[tid].to.ip == from.ip)
      ensures accepted ==> !Live(requests, timeout, tid, now)
      ensures (requests, accepted) == Remove(old(requests), timeout, tid, from, now)
    {
      if tid !in requests {
        return false;
      }
      if now - requests[tid].sentAt >= timeout {
        requests := requests - {tid};
        return false;
      }
      if !DoesMatch(requests[tid], from) {
        return false;
      }
      requests := requests - {tid};
      return true;
    }

    method Clean(now: int)
      modifies this
      ensures requests == Cleanup(old(requests), timeout, now)
      ensures Equivalent(requests, old(requests), timeout, now)
      ensures forall t :: t in requests <==> t in old(requests) && now - old(requests)[t].sentAt < timeout
    {
      CleanupEquivalent(requests, timeout, now);
      requests := map t | t in requests && requests[t].sentAt > now - timeout :: requests[t];
    }
  }

  class KrpcSocket {
    var nextTid: Tid
    /** Requests ever sent. The source has no such counter; it stamps new queries for the
        hypotheses on the reuse of ids, and nothing else reads it. */
    var sent: nat
    const inflight: InflightRequests
    var serverMode: bool
    var lastCleanup: int

    ghost predicate Valid()
      reads this
    {
      nextTid == Wrap(sent)
    }

    ghost function State(): Socket
      reads this, inflight
    {
      Socket(sent, inflight.requests, inflight.timeout, serverMode, lastCleanup)
    }

    constructor (timeout: nat, serverMode: bool, now: int)
      ensures Valid() && fresh(inflight)
      ensures State() == Socket(0, map[], timeout, serverMode, now)
    {
      nextTid, sent, lastCleanup := 0, 0, now;
      this.serverMode := serverMode;
      inflight := new InflightRequests(timeout);
    }

    /** `tid`: the previous value, the counter wrapping at 2^32. */
    method NextTid() returns (tid: Tid)
      requires Valid()
      modifies this`nextTid, this`sent
      ensures Valid() && sent == old(sent) + 1 && tid == Wrap(old(sent))
    {
      tid := nextTid;
      nextTid := (nextTid + 1) % TID_SPACE;
      sent := sent + 1;
    }

    method SendRequest(to: Address, now: int) returns (tid: Tid)
      requires Valid()
      modifies this`nextTid, this`sent, inflight
      ensures Valid() && tid == Wrap(old(sent))
      ensures State() == Request(old(State()), to, now)
      ensures inflight.requests == old(inflight.requests)[tid := InflightRequest(to, now)] && sent == old(sent) + 1
    {
      tid := NextTid();
      inflight.Add(tid, to, now);
    }

    /** The head of `recv_from`. */
    method Sweep(now: int)
      requires Valid()
      modifies this`lastCleanup, inflight
      ensures Valid()
      ensures State() == Tidy(old(State()), now)
      ensures now - old(lastCleanup) > 200 ==>
                lastCleanup == now && forall t :: t in inflight.requests ==> now - inflight.requests[t].sentAt < inflight.timeout
      ensures now - old(lastCleanup) <= 200 ==> State() == old(State())
    {
      if now - lastCleanup > INFLIGHT_CLEANUP_INTERVAL {
        lastCleanup := now;
        inflight.Clean(now);
      }
    }

    /** `recv_from` once a datagram is in hand. */
    method Recv(d: Datagram, now: int) returns (delivered: bool)
      requires Valid()
      modifies this`lastCleanup, inflight
      ensures Valid()
      ensures (State(), delivered) == Receive(old(State()), d, now)
      ensures var was := old(inflight.requests);
              delivered <==>
                d.from.port != 0 &&
                (d.isRequest ||
                 (&& d.tid in was && now - was[d.tid].sentAt < inflight.timeout
                  && was[d.tid].to.port == d.from.port
                  && (was[d.tid].to.ip == 0 || was[d.tid].to.ip == d.from.ip)))
    {
      Sweep(now);
      if d.from.port == 0 {
        return false;
      }
      if d.isRequest {
        return true;
      }
      delivered := inflight.Take(d.tid, d.from, now);
    }
  }
}
