// One UDP tracker as a state machine over values (struct tau_tracker in
// libtransmission/announcer-udp.cc). Every function follows the source's steps;
// UdpTracker has the class whose methods are proved to compute them, and
// UdpSafety what every run keeps.
module UdpMachine {
  import opened Options
  import opened Verdict
  import opened UdpWire

  const PROTOCOLS: nat := 2  // 0 is IPv4, 1 is IPv6
  const CONNECTION_TTL: nat := 45
  const CONNECT_TTL: nat := 30
  const DNS_RETRY: nat := 3600
  const ANNOUNCE_TIMEOUT: nat := 45
  const SCRAPE_TIMEOUT: nat := 30

  datatype Lookup = NoLookup | Looking | Ready(result: Option<nat>)

  // What a tracker keeps per IP protocol. Addresses are opaque numbers.
  datatype Channel = Channel(connectingAt: nat, connectTxn: nat, connId: nat, expires: nat,
                             lookup: Lookup, addr: Option<nat>, addrExpires: nat)

  const FRESH_CHANNEL := Channel(0, 0, 0, 0, NoLookup, None, 0)

  // `rid` tells requests apart; `data` names the aggregator two announces share.
  datatype Announce = Announce(rid: nat, txn: nat, proto: nat, createdAt: nat, sentAt: nat, data: nat)

  datatype Scrape = Scrape(rid: nat, txn: nat, createdAt: nat, sentAt: nat, hasCallback: bool)

  // Why a connect is over: a reply with some transaction ID, or a timeout.
  datatype Cause = Reply(replyTxn: nat) | Overdue(now: nat)

  // What a run did, in order.
  datatype Event =
    | Resolved(p: nat, found: Option<nat>)
    | ConnectSent(p: nat, addr: nat, txn: nat, at: nat)
    | ConnectEnded(p: nat, txn: nat, cause: Cause)
    | ConnIdReceived(p: nat, id: nat, at: nat)
    | AnnounceSent(rid: nat, txn: nat, own: nat, p: nat, addr: nat, id: nat, at: nat)
    | ScrapeSent(rid: nat, txn: nat, p: nat, addr: nat, id: nat, at: nat)
    | ScrapeDropped(rid: nat)
    | AnnounceAnswered(rid: nat, data: nat, answer: Answer)
    | ScrapeAnswered(rid: nat, called: bool, result: ScrapeResult)
    | Called(data: nat, response: Response)

  datatype State = State(channels: seq<Channel>, announces: seq<Announce>, scrapes: seq<Scrape>,
                         aggs: map<nat, Agg>, nextRid: nat, nextData: nat, log: seq<Event>)

  const START := State([FRESH_CHANNEL, FRESH_CHANNEL], [], [], map[], 0, 0, [])

  predicate Wf(s: State) {
    |s.channels| == PROTOCOLS
  }

  predicate Idle(s: State) {
    s.announces == [] && s.scrapes == []
  }

  predicate IsConnected(c: Channel, now: nat) {
    c.connId != 0 && now < c.expires
  }

  // Neither the queues nor their aggregators change.
  predicate SameQueues(s: State, r: State) {
    && r.announces == s.announces && r.scrapes == s.scrapes && r.aggs == s.aggs
    && r.nextRid == s.nextRid && r.nextData == s.nextData
  }

  // ----- single steps

  function Log(s: State, e: Event): State {
    s.(log := s.log + [e])
  }

  function SetChannel(s: State, p: nat, c: Channel): (r: State)
    requires Wf(s) && p < PROTOCOLS
    ensures Wf(r)
  {
    s.(channels := s.channels[p := c])
  }

  // A finished DNS request is collected.
  function Resolve(s: State, p: nat, now: nat): (r: State)
    requires Wf(s) && p < PROTOCOLS
    ensures Wf(r) && SameQueues(s, r)
  {
    var c := s.channels[p];
    if !c.lookup.Ready? then s
    else
      var d := c.(lookup := NoLookup, addrExpires := now + DNS_RETRY);
      if c.lookup.result == None then SetChannel(s, p, d)
      else Log(SetChannel(s, p, d.(addr := c.lookup.result)), Resolved(p, c.lookup.result))
  }

  function StartLookup(s: State, p: nat): (r: State)
    requires Wf(s) && p < PROTOCOLS
    ensures Wf(r) && SameQueues(s, r)
  {
    Log(SetChannel(s, p, s.channels[p].(addr := None, lookup := Looking)), Resolved(p, None))
  }

  function SendConnect(s: State, p: nat, now: nat, txn: nat): (r: State)
    requires Wf(s) && p < PROTOCOLS && s.channels[p].addr.Some?
    ensures Wf(r) && SameQueues(s, r)
  {
    var c := s.channels[p];
    Log(SetChannel(s, p, c.(connectingAt := now, connectTxn := txn)), ConnectSent(p, c.addr.value, txn, now))
  }

  function EndConnect(s: State, p: nat, cause: Cause): (r: State)
    requires Wf(s) && p < PROTOCOLS
    ensures Wf(r) && SameQueues(s, r)
  {
    var c := s.channels[p];
    Log(SetChannel(s, p, c.(connectingAt := 0, connectTxn := 0)), ConnectEnded(p, c.connectTxn, cause))
  }

  function ReceiveConnId(s: State, p: nat, id: nat, now: nat): (r: State)
    requires Wf(s) && p < PROTOCOLS
    ensures Wf(r) && SameQueues(s, r)
  {
    Log(SetChannel(s, p, s.channels[p].(connId := id, expires := now + CONNECTION_TTL)), ConnIdReceived(p, id, now))
  }

  function Without<T>(list: seq<T>, i: nat): seq<T>
    requires i < |list|
  {
    list[..i] + list[i + 1..]
  }

  // Announce i gets its answer, tells its aggregator, and leaves the queue.
  function AnswerAnnounce(s: State, i: nat, a: Answer): (r: State)
    requires i < |s.announces|
    ensures r.channels == s.channels && r.scrapes == s.scrapes && r.announces == Without(s.announces, i)
  {
    var req := s.announces[i];
    var (g, made) := Take(if req.data in s.aggs then s.aggs[req.data] else NewAgg(PROTOCOLS), a);
    var t := Log(s.(announces := Without(s.announces, i), aggs := s.aggs[req.data := g]),
                 AnnounceAnswered(req.rid, req.data, a));
    if made == [] then t else Log(t, Called(req.data, made[0]))
  }

  function AnswerScrape(s: State, i: nat, result: ScrapeResult): (r: State)
    requires i < |s.scrapes|
    ensures r.channels == s.channels && r.announces == s.announces && r.scrapes == Without(s.scrapes, i)
  {
    Log(s.(scrapes := Without(s.scrapes, i)), ScrapeAnswered(s.scrapes[i].rid, s.scrapes[i].hasCallback, result))
  }

  function SendAnnounce(s: State, i: nat, p: nat, now: nat): (r: State)
    requires Wf(s) && i < |s.announces| && p < PROTOCOLS && s.channels[p].addr.Some?
    ensures r.channels == s.channels && r.scrapes == s.scrapes && |r.announces| == |s.announces|
  {
    var req, c := s.announces[i], s.channels[p];
    Log(s.(announces := s.announces[i := req.(sentAt := now)]),
        AnnounceSent(req.rid, req.txn, req.proto, p, c.addr.value, c.connId, now))
  }

  // A scrape nobody waits for leaves the queue once it is sent.
  function SendScrape(s: State, i: nat, p: nat, now: nat): (r: State)
    requires Wf(s) && i < |s.scrapes| && p < PROTOCOLS && s.channels[p].addr.Some?
    ensures r.channels == s.channels && r.announces == s.announces
    ensures |r.scrapes| == if s.scrapes[i].hasCallback then |s.scrapes| else |s.scrapes| - 1
  {
    var req, c := s.scrapes[i], s.channels[p];
    var sent := Log(s, ScrapeSent(req.rid, req.txn, p, c.addr.value, c.connId, now));
    if req.hasCallback then sent.(scrapes := s.scrapes[i := req.(sentAt := now)])
    else Log(sent.(scrapes := Without(s.scrapes, i)), ScrapeDropped(req.rid))
  }

  // ----- upkeep

  function PollDns(s: State, now: nat): (r: State)
    requires Wf(s)
    ensures Wf(r) && SameQueues(s, r)
  {
    Resolve(Resolve(s, 0, now), 1, now)
  }

  // Looks up the address when it is stale, and connects when there is an address
  // but no valid connection ID and no connect under way.
  function Prepare(s: State, p: nat, now: nat, txn: nat): (r: State)
    requires Wf(s) && p < PROTOCOLS
    ensures Wf(r) && SameQueues(s, r)
  {
    var t := if s.channels[p].lookup.NoLookup? && s.channels[p].addrExpires <= now then StartLookup(s, p) else s;
    var c := t.channels[p];
    if c.addr.Some? && !IsConnected(c, now) && c.connectingAt == 0 then SendConnect(t, p, now, txn) else t
  }

  function FailScrapes(s: State, result: ScrapeResult): (r: State)
    ensures r.channels == s.channels && r.announces == s.announces && r.scrapes == []
    decreases |s.scrapes|
  {
    if s.scrapes == [] then s else FailScrapes(AnswerScrape(s, 0, result), result)
  }

  function FailAnnounces(s: State, a: Answer): (r: State)
    ensures r.channels == s.channels && r.scrapes == s.scrapes && r.announces == []
    decreases |s.announces|
  {
    if s.announces == [] then s else FailAnnounces(AnswerAnnounce(s, 0, a), a)
  }

  function FailAll(s: State, errmsg: string): (r: State)
    ensures r.channels == s.channels && Idle(r)
  {
    FailAnnounces(FailScrapes(s, ScrapeFailed(true, false, errmsg)),
                  Answer(EMPTY_RESPONSE.(didConnect := true, errmsg := errmsg), false))
  }

  const TIMED_OUT := Answer(EMPTY_RESPONSE.(didTimeout := true), false)
  const SCRAPE_TIMED_OUT := ScrapeFailed(false, true, "")

  function ExpireAnnounces(s: State, i: nat, now: nat): (r: State)
    ensures r.channels == s.channels && r.scrapes == s.scrapes
    decreases |s.announces| - i
  {
    if i >= |s.announces| then s
    else if s.announces[i].createdAt + ANNOUNCE_TIMEOUT <= now then
      ExpireAnnounces(AnswerAnnounce(s, i, TIMED_OUT), i, now)
    else ExpireAnnounces(s, i + 1, now)
  }

  function ExpireScrapes(s: State, i: nat, now: nat): (r: State)
    ensures r.channels == s.channels && r.announces == s.announces
    decreases |s.scrapes| - i
  {
    if i >= |s.scrapes| then s
    else if s.scrapes[i].createdAt + SCRAPE_TIMEOUT <= now then
      ExpireScrapes(AnswerScrape(s, i, SCRAPE_TIMED_OUT), i, now)
    else ExpireScrapes(s, i + 1, now)
  }

  predicate Usable(s: State, p: nat, now: nat)
    requires Wf(s) && p < PROTOCOLS
  {
    s.channels[p].addr.Some? && IsConnected(s.channels[p], now)
  }

  // maybe_send_request(): the first usable protocol the request wants. A scrape
  // takes any, an announce only its own.
  function RouteFor(s: State, own: Option<nat>, now: nat): (r: Option<nat>)
    requires Wf(s)
    ensures r.Some? ==> r.value < PROTOCOLS && Usable(s, r.value, now) && (own.Some? ==> own.value == r.value)
    ensures r.None? ==> forall p :: 0 <= p < PROTOCOLS && Usable(s, p, now) ==> own.Some? && own.value != p
  {
    if (own == None || own == Some(0)) && Usable(s, 0, now) then Some(0)
    else if (own == None || own == Some(1)) && Usable(s, 1, now) then Some(1)
    else None
  }

  function SendAnnounces(s: State, i: nat, now: nat): (r: State)
    requires Wf(s)
    ensures r.channels == s.channels && r.scrapes == s.scrapes
    decreases |s.announces| - i
  {
    if i >= |s.announces| then s
    else
      var route := RouteFor(s, Some(s.announces[i].proto), now);
      if s.announces[i].sentAt != 0 || route == None then SendAnnounces(s, i + 1, now)
      else SendAnnounces(SendAnnounce(s, i, route.value, now), i + 1, now)
  }

  function SendScrapes(s: State, i: nat, now: nat): (r: State)
    requires Wf(s)
    ensures r.channels == s.channels && r.announces == s.announces
    decreases |s.scrapes| - i
  {
    if i >= |s.scrapes| then s
    else
      var route := RouteFor(s, None, now);
      if s.scrapes[i].sentAt != 0 || route == None then SendScrapes(s, i + 1, now)
      else
        var sent := SendScrape(s, i, route.value, now);
        SendScrapes(sent, if s.scrapes[i].hasCallback then i + 1 else i, now)
  }

  function MaybeSend(s: State, now: nat): (r: State)
    requires Wf(s)
    ensures r.channels == s.channels
  {
    if s.channels[0].addr == None && s.channels[1].addr == None then s
    else SendScrapes(SendAnnounces(s, 0, now), 0, now)
  }

  // upkeep(). It can reach itself again through a timed-out connect, but only
  // after fail_all() has emptied both queues, so the recursion ends.
  function Upkeep(s: State, timeoutReqs: bool, now: nat, txns: (nat, nat)): (r: State)
    requires Wf(s)
    ensures Wf(r)
    decreases if Idle(s) then 0 else 1, 2
  {
    var polled := PollDns(s, now);
    if Idle(polled) then polled
    else
      var ready := Prepare(Prepare(polled, 0, now, txns.0), 1, now, txns.1);
      var kept := if timeoutReqs then TimeoutRequests(ready, now, txns) else ready;
      MaybeSend(kept, now)
  }

  function TimeoutRequests(s: State, now: nat, txns: (nat, nat)): (r: State)
    requires Wf(s)
    ensures Wf(r)
    decreases 1, 1
  {
    var t := TimeoutConnect(TimeoutConnect(s, 0, now, txns), 1, now, txns);
    ExpireScrapes(ExpireAnnounces(t, 0, now), 0, now)
  }

  function TimeoutConnect(s: State, p: nat, now: nat, txns: (nat, nat)): (r: State)
    requires Wf(s) && p < PROTOCOLS
    ensures Wf(r)
    decreases 1, 0
  {
    var at := s.channels[p].connectingAt;
    if at != 0 && at + CONNECT_TTL < now then OnConnectionResponse(s, p, Overdue(now), ACTION_ERROR, [], now, txns)
    else s
  }

  function ConnectError(p: nat, body: seq<Byte>): string {
    if body != [] then AsText(body) else (if p == 0 then "IPv4" else "IPv6") + " connection failed"
  }

  function Handled(s: State, p: nat, action: nat, body: seq<Byte>, now: nat): (r: State)
    requires Wf(s) && p < PROTOCOLS
    ensures Wf(r) && (action == ACTION_ERROR ==> Idle(r))
  {
    if action == ACTION_CONNECT then ReceiveConnId(s, p, Get(if |body| > 8 then body[..8] else body), now)
    else if action == ACTION_ERROR then FailAll(s, ConnectError(p, body))
    else s
  }

  // on_connection_response()
  function OnConnectionResponse(s: State, p: nat, cause: Cause, action: nat, body: seq<Byte>, now: nat,
                                txns: (nat, nat)): (r: State)
    requires Wf(s) && p < PROTOCOLS
    ensures Wf(r)
    decreases if action == ACTION_ERROR then 0 else 1, 3
  {
    Upkeep(Handled(EndConnect(s, p, cause), p, action, body, now), true, now, txns)
  }

  // ----- what the world does to a tracker

  // tr_announcer_udp_impl::announce(): one request per protocol, sharing an
  // aggregator.
  function DoAnnounce(s: State, reqTxns: (nat, nat), now: nat, txns: (nat, nat)): (r: State)
    requires Wf(s)
    ensures Wf(r)
  {
    Upkeep(QueueAnnounces(s, reqTxns, now), false, now, txns)
  }

  function QueueAnnounces(s: State, reqTxns: (nat, nat), now: nat): State {
    var d := s.nextData;
    s.(announces := s.announces + [Announce(s.nextRid, reqTxns.0, 0, now, 0, d)]
                    + [Announce(s.nextRid + 1, reqTxns.1, 1, now, 0, d)],
       aggs := s.aggs[d := NewAgg(PROTOCOLS)], nextRid := s.nextRid + 2, nextData := d + 1)
  }

  function QueueScrape(s: State, txn: nat, hasCallback: bool, now: nat): State {
    s.(scrapes := s.scrapes + [Scrape(s.nextRid, txn, now, 0, hasCallback)], nextRid := s.nextRid + 1)
  }

  // tr_announcer_udp_impl::scrape()
  function DoScrape(s: State, txn: nat, hasCallback: bool, now: nat, txns: (nat, nat)): (r: State)
    requires Wf(s)
    ensures Wf(r)
  {
    Upkeep(QueueScrape(s, txn, hasCallback, now), false, now, txns)
  }

  // The background lookup finishes.
  function DnsDone(s: State, p: nat, result: Option<nat>): (r: State)
    requires Wf(s) && p < PROTOCOLS
    ensures Wf(r) && SameQueues(s, r)
  {
    if s.channels[p].lookup.Looking? then SetChannel(s, p, s.channels[p].(lookup := Ready(result))) else s
  }

  function FindAnnounce(list: seq<Announce>, txn: nat): (r: Option<nat>)
    ensures r.Some? ==> r.value < |list| && list[r.value].txn == txn
    ensures r.Some? ==> forall j :: 0 <= j < r.value ==> list[j].txn != txn
    ensures r.None? ==> forall j :: 0 <= j < |list| ==> list[j].txn != txn
  {
    if list == [] then None
    else if list[0].txn == txn then Some(0)
    else
      var rest := FindAnnounce(list[1..], txn);
      if rest.Some? then Some(rest.value + 1) else None
  }

  function FindScrape(list: seq<Scrape>, txn: nat): (r: Option<nat>)
    ensures r.Some? ==> r.value < |list| && list[r.value].txn == txn
    ensures r.Some? ==> forall j :: 0 <= j < r.value ==> list[j].txn != txn
    ensures r.None? ==> forall j :: 0 <= j < |list| ==> list[j].txn != txn
  {
    if list == [] then None
    else if list[0].txn == txn then Some(0)
    else
      var rest := FindScrape(list[1..], txn);
      if rest.Some? then Some(rest.value + 1) else None
  }

  // The part of handle_message() that concerns one tracker; `p` is the protocol
  // the datagram came over, or PROTOCOLS if its sender has no valid address.
  function Handle(s: State, p: nat, action: nat, txn: nat, body: seq<Byte>, now: nat, txns: (nat, nat))
    : (r: (State, bool))
    requires Wf(s) && p <= PROTOCOLS
    ensures Wf(r.0)
  {
    var a, c := FindAnnounce(s.announces, txn), FindScrape(s.scrapes, txn);
    if p < PROTOCOLS && s.channels[p].connectingAt != 0 && txn == s.channels[p].connectTxn then
      (OnConnectionResponse(s, p, Reply(txn), action, body, now, txns), true)
    else if a.Some? then (AnswerAnnounce(s, a.value, AnnounceAnswer(p, action, body)), true)
    else if c.Some? then (AnswerScrape(s, c.value, ScrapeReply(action, body)), true)
    else (s, false)
  }
}
