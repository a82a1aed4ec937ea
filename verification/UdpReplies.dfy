// What a tracker makes of each datagram that arrives, byte for byte, and where
// connection IDs come from (BEP 15 and libtransmission/announcer-udp.cc).
module UdpReplies {
  import opened Options
  import opened Verdict
  import opened UdpWire
  import opened UdpMachine
  import opened UdpSafety
  import opened UdpRuns
  import opened UdpUpkeep

  // ----- messages

  // A reply as BEP 15 lays it out.
  function Message(action: nat, txn: nat, body: seq<Byte>): seq<Byte> {
    Put(action, 4) + Put(txn, 4) + body
  }

  // Every message reads back, and which ones are taken for a tracker's reply.
  lemma MessageReads(action: nat, txn: nat, body: seq<Byte>)
    requires action <= 3 && txn < 0x1_0000_0000
    ensures var m := Message(action, txn, body);
            && ActionOf(m) == action && TransactionOf(m) == txn && m[8..] == body
            && (Understood(m) <==> if action == 0 then |body| == 8
                                   else if action == 3 then true
                                   else |body| >= 12)
  {
    var m := Message(action, txn, body);
    MessageParts(action, txn, body);
    SmallAction(action, m);
    assert |m| == 8 + |body|;
  }

  lemma MessageParts(action: nat, txn: nat, body: seq<Byte>)
    requires action < 0x1_0000_0000 && txn < 0x1_0000_0000
    ensures var m := Message(action, txn, body);
            |m| == 8 + |body| && ActionField(m) == action && TransactionOf(m) == txn && m[8..] == body
  {
    var m := Message(action, txn, body);
    assert m[0..4] == Put(action, 4) && m[4..8] == Put(txn, 4) && m[8..] == body;
    FieldReads(action, 4, m[0..4]);
    FieldReads(txn, 4, m[4..8]);
  }

  lemma SmallAction(action: nat, msg: seq<Byte>)
    requires |msg| >= 8 && ActionField(msg) == action < 256
    ensures ActionOf(msg) == action
  {
  }

  // Nothing else is taken for a reply.
  lemma UnknownIsIgnored(msg: seq<Byte>)
    ensures Understood(msg) ==> |msg| >= 8 && msg[3] <= 3
  {
    if Understood(msg) {
      NarrowingMattersIff(msg);
    }
  }

  lemma {:induction false} PutGet(field: seq<Byte>)
    ensures Put(Get(field), |field|) == field
  {
    if field != [] {
      var init, last := field[..|field| - 1], field[|field| - 1];
      PutGet(init);
      LastByte(Get(init), last);
      Quotient(Get(init), last);
      assert field == init + [last];
    }
  }

  lemma Quotient(high: nat, low: Byte)
    ensures (256 * high + low) / 256 == high
  {
  }

  // ----- replies to a connect

  predicate Awaits(s: State, p: nat, txn: nat)
    requires Wf(s)
  {
    p < 2 && s.channels[p].connectingAt != 0 && s.channels[p].connectTxn == txn
  }

  // The state once the connect is over and, if it succeeded, its ID is stored.
  function Connected(s: State, p: nat, id: nat, now: nat): State
    requires Wf(s) && p < PROTOCOLS
  {
    var c := s.channels[p].(connectingAt := 0, connectTxn := 0, connId := id, expires := now + 45);
    s.(channels := s.channels[p := c],
       log := s.log + [ConnectEnded(p, s.channels[p].connectTxn, Reply(s.channels[p].connectTxn)),
                       ConnIdReceived(p, id, now)])
  }

  // Main result: the reply to the connect that is under way stores the eight
  // bytes that arrived as the connection ID, good for 45 seconds.
  lemma ConnectReplyExactly(s: State, p: nat, txn: nat, id: nat, now: nat, txns: (nat, nat))
    requires Wf(s) && Awaits(s, p, txn) && id < 0x1_0000_0000_0000_0000
    ensures var r := Handle(s, p, 0, txn, Put(id, 8), now, txns);
            && r == (Upkeep(Connected(s, p, id, now), true, now, txns), true)
            && LastId(r.0.log, p) == Some((id, now))
            && (forall q :: 0 <= q < 2 && q != p ==> LastId(r.0.log, q) == LastId(s.log, q))
            && r.0.channels[p].connId == id && r.0.channels[p].expires == now + 45
  {
    FieldReads(id, 8, Put(id, 8));
    var t := Connected(s, p, id, now);
    var ended := EndConnect(s, p, Reply(txn));
    assert t == ReceiveConnId(ended, p, id, now);
    LastIdConnected(s, p, id, now);
    UpkeepKeepsIds(t, true, now, txns);
    assert forall q :: 0 <= q < 2 ==> LastId(Upkeep(t, true, now, txns).log, q) == LastId(t.log, q);
  }

  lemma LastIdConnected(s: State, p: nat, id: nat, now: nat)
    requires Wf(s) && p < PROTOCOLS
    ensures var t := Connected(s, p, id, now);
            LastId(t.log, p) == Some((id, now)) && forall q :: q != p ==> LastId(t.log, q) == LastId(s.log, q)
  {
    var t := Connected(s, p, id, now);
    assert t.log[..|t.log| - 1][..|s.log|] == s.log;
  }

  // ----- connection IDs come from replies only

  ghost predicate NoneReceived(events: seq<Event>) {
    forall e :: e in events ==> !e.ConnIdReceived?
  }

  lemma {:induction false} ToldReceiveNothing(announces: seq<Announce>, scrapes: seq<Scrape>, a: Answer,
                                              result: ScrapeResult, now: nat)
    ensures NoneReceived(AnnouncesTold(announces, a)) && NoneReceived(ScrapesTold(scrapes, result))
    ensures NoneReceived(ExpiredAnnouncesTold(announces, now)) && NoneReceived(ExpiredScrapesTold(scrapes, now))
    decreases |announces| + |scrapes|
  {
    if announces != [] {
      ToldReceiveNothing(announces[1..], scrapes, a, result, now);
    } else if scrapes != [] {
      ToldReceiveNothing(announces, scrapes[1..], a, result, now);
    }
  }

  lemma {:induction false} SentReceiveNothing(announces: seq<Announce>, scrapes: seq<Scrape>, lines: Lines, now: nat)
    ensures NoneReceived(AnnouncesSent(announces, lines, now)) && NoneReceived(ScrapesSent(scrapes, lines, now))
    decreases |announces| + |scrapes|
  {
    if announces != [] {
      SentReceiveNothing(announces[1..], scrapes, lines, now);
    } else if scrapes != [] {
      SentReceiveNothing(announces, scrapes[1..], lines, now);
    }
  }

  lemma AllToldReceivesNothing(s: State, text: string)
    ensures NoneReceived(AllTold(s, text))
  {
    ToldReceiveNothing(s.announces, s.scrapes, Answer(Response(true, false, text, 0, None, None, []), false),
                       ScrapeFailed(true, false, text), 0);
  }

  lemma UpkeepReceivesNothing(s: State, timeoutReqs: bool, now: nat, txns: (nat, nat))
    requires Wf(s)
    ensures NoneReceived(ReadyEvents(s, now, txns)) && NoneReceived(TimeoutEvents(s, now))
    ensures NoneReceived(UpkeepEvents(s, timeoutReqs, now, txns))
  {
    AllToldReceivesNothing(s, ConnectError(0, []));
    AllToldReceivesNothing(s, ConnectError(1, []));
    ToldReceiveNothing(s.announces, s.scrapes, TIMED_OUT, SCRAPE_TIMED_OUT, now);
    SentReceiveNothing(AnnouncesKept(s, timeoutReqs, now), ScrapesKept(s, timeoutReqs, now), LinesOf(s, now), now);
  }

  // An upkeep adds to the log, but no connection ID.
  lemma UpkeepAdds(s: State, timeoutReqs: bool, now: nat, txns: (nat, nat))
    requires Wf(s)
    ensures var r := Upkeep(s, timeoutReqs, now, txns); s.log <= r.log && NoneReceived(r.log[|s.log|..])
  {
    var r := Upkeep(s, timeoutReqs, now, txns);
    if Idle(s) {
      IdleExactly(s, timeoutReqs, now, txns);
    } else {
      UpkeepExactly(s, timeoutReqs, now, txns);
      UpkeepReceivesNothing(s, timeoutReqs, now, txns);
    }
    forall e | e in r.log[|s.log|..]
      ensures !e.ConnIdReceived?
    {
      if !e.Called? {
        UncalledHas(r.log[|s.log|..], e);
      }
    }
  }

  lemma {:induction false} LastIdStays(log: seq<Event>, more: seq<Event>, p: nat)
    requires NoneReceived(more)
    ensures LastId(log + more, p) == LastId(log, p)
  {
    if more == [] {
      assert log + more == log;
    } else {
      assert (log + more)[..|log + more| - 1] == log + more[..|more| - 1];
      LastIdStays(log, more[..|more| - 1], p);
    }
  }

  lemma UpkeepKeepsIds(s: State, timeoutReqs: bool, now: nat, txns: (nat, nat))
    requires Wf(s)
    ensures var r := Upkeep(s, timeoutReqs, now, txns);
            forall p :: 0 <= p < 2 ==>
              && LastId(r.log, p) == LastId(s.log, p)
              && r.channels[p].connId == s.channels[p].connId && r.channels[p].expires == s.channels[p].expires
  {
    var r := Upkeep(s, timeoutReqs, now, txns);
    UpkeepAdds(s, timeoutReqs, now, txns);
    assert r.log == s.log + r.log[|s.log|..];
    forall p | 0 <= p < 2
      ensures LastId(r.log, p) == LastId(s.log, p)
    {
      LastIdStays(s.log, r.log[|s.log|..], p);
    }
    UpkeepKeepsIdFields(s, timeoutReqs, now, txns);
  }

  lemma ChannelKeepsId(c: Channel, timeoutReqs: bool, now: nat, txn: nat)
    ensures ChannelAfter(c, timeoutReqs, now, txn).connId == Polled(c, now).connId == c.connId
    ensures ChannelAfter(c, timeoutReqs, now, txn).expires == Polled(c, now).expires == c.expires
  {
  }

  lemma UpkeepKeepsIdFields(s: State, timeoutReqs: bool, now: nat, txns: (nat, nat))
    requires Wf(s)
    ensures var r := Upkeep(s, timeoutReqs, now, txns);
            forall p :: 0 <= p < 2 ==>
              r.channels[p].connId == s.channels[p].connId && r.channels[p].expires == s.channels[p].expires
  {
    ChannelKeepsId(s.channels[0], timeoutReqs, now, txns.0);
    ChannelKeepsId(s.channels[1], timeoutReqs, now, txns.1);
    if Idle(s) {
      IdleExactly(s, timeoutReqs, now, txns);
    } else {
      UpkeepExactly(s, timeoutReqs, now, txns);
    }
  }

  // ----- other replies to a connect

  // An error reply fails everything pending with the tracker's text.
  lemma ConnectErrorExactly(s: State, p: nat, txn: nat, body: seq<Byte>, now: nat, txns: (nat, nat))
    requires Wf(s) && Awaits(s, p, txn)
    ensures var (r, mine) := Handle(s, p, 3, txn, body, now, txns);
            var c := s.channels[p].(connectingAt := 0, connectTxn := 0);
            && mine && Idle(r)
            && r.channels == [Polled(s.channels[p := c][0], now), Polled(s.channels[p := c][1], now)]
            && Logs(s, r, [ConnectEnded(p, txn, Reply(txn))] + AllTold(s, ConnectError(p, body))
                          + (PolledEvents(s.channels[0], 0) + PolledEvents(s.channels[1], 1)))
  {
    var failed := FailAll(EndConnect(s, p, Reply(txn)), ConnectError(p, body));
    EndAndFail(s, p, Reply(txn), ConnectError(p, body));
    IdleExactly(failed, true, now, txns);
    LogsThen(s, failed, Upkeep(failed, true, now, txns),
             [ConnectEnded(p, txn, Reply(txn))] + AllTold(s, ConnectError(p, body)),
             PolledEvents(s.channels[0], 0) + PolledEvents(s.channels[1], 1));
  }

  // Any other action just ends the connect, which upkeep then tries anew.
  lemma OddReplyExactly(s: State, p: nat, action: nat, txn: nat, body: seq<Byte>, now: nat, txns: (nat, nat))
    requires Wf(s) && Awaits(s, p, txn) && action != 0 && action != 3
    ensures var c := s.channels[p].(connectingAt := 0, connectTxn := 0);
            var t := s.(channels := s.channels[p := c], log := s.log + [ConnectEnded(p, txn, Reply(txn))]);
            Handle(s, p, action, txn, body, now, txns) == (Upkeep(t, true, now, txns), true)
  {
  }

  // ----- replies to an announce

  // The first pending announce with this transaction ID is number i.
  predicate FirstAnnounce(s: State, i: nat, txn: nat) {
    i < |s.announces| && s.announces[i].txn == txn && forall j :: 0 <= j < i ==> s.announces[j].txn != txn
  }

  predicate FirstScrape(s: State, i: nat, txn: nat) {
    i < |s.scrapes| && s.scrapes[i].txn == txn && forall j :: 0 <= j < i ==> s.scrapes[j].txn != txn
  }

  predicate NoAnnounce(s: State, txn: nat) {
    forall j :: 0 <= j < |s.announces| ==> s.announces[j].txn != txn
  }

  predicate NoScrape(s: State, txn: nat) {
    forall j :: 0 <= j < |s.scrapes| ==> s.scrapes[j].txn != txn
  }

  lemma FirstAnnounceFound(s: State, i: nat, txn: nat)
    requires FirstAnnounce(s, i, txn)
    ensures FindAnnounce(s.announces, txn) == Some(i)
  {
  }

  lemma FirstScrapeFound(s: State, i: nat, txn: nat)
    requires FirstScrape(s, i, txn)
    ensures FindScrape(s.scrapes, txn) == Some(i)
  {
  }

  // The reply of BEP 15's announce response table.
  function AnnounceReply(interval: nat, leechers: nat, seeders: nat, peers: seq<Byte>): seq<Byte> {
    Put(interval, 4) + Put(leechers, 4) + Put(seeders, 4) + peers
  }

  ghost predicate SamePeers(peers: seq<nat>, bytes: seq<Byte>) {
    |peers| == |bytes| && forall i :: 0 <= i < |peers| ==> peers[i] == bytes[i]
  }

  lemma AnnounceReplyReads(p: nat, interval: nat, leechers: nat, seeders: nat, peers: seq<Byte>)
    requires interval < 0x1_0000_0000 && leechers < 0x1_0000_0000 && seeders < 0x1_0000_0000
    ensures var a := AnnounceAnswer(p, 1, AnnounceReply(interval, leechers, seeders, peers));
            var heard := a.response.peers;
            && a.success && a.response == Response(true, false, "", interval, Some(leechers), Some(seeders), heard)
            && SamePeers(heard, if p < 2 then peers else [])
  {
    var body := AnnounceReply(interval, leechers, seeders, peers);
    assert body[0..4] == Put(interval, 4) && body[4..8] == Put(leechers, 4) && body[8..12] == Put(seeders, 4);
    assert body[12..] == peers;
    FieldReads(interval, 4, body[0..4]);
    FieldReads(leechers, 4, body[4..8]);
    FieldReads(seeders, 4, body[8..12]);
  }

  // Main result: an announce reply ends the first pending announce with its
  // transaction ID, which hears a success with the very numbers and peers that
  // arrived, and passes them on at once. Nothing else changes.
  lemma AnnounceReplyExactly(s: State, p: nat, txn: nat, i: nat, interval: nat, leechers: nat, seeders: nat,
                             peers: seq<Byte>, now: nat, txns: (nat, nat))
    requires Wf(s) && p <= 2 && !Awaits(s, p, txn) && FirstAnnounce(s, i, txn)
    requires interval < 0x1_0000_0000 && leechers < 0x1_0000_0000 && seeders < 0x1_0000_0000
    ensures var (r, mine) := Handle(s, p, 1, txn, AnnounceReply(interval, leechers, seeders, peers), now, txns);
            var req := s.announces[i];
            && mine && r.channels == s.channels && r.scrapes == s.scrapes
            && r.announces == s.announces[..i] + s.announces[i + 1..]
            && exists heard ::
                 var response := Response(true, false, "", interval, Some(leechers), Some(seeders), heard);
                 && SamePeers(heard, if p < 2 then peers else [])
                 && r.log == s.log + [AnnounceAnswered(req.rid, req.data, Answer(response, true)),
                                      Called(req.data, response)]
  {
    FirstAnnounceFound(s, i, txn);
    AnnounceReplyReads(p, interval, leechers, seeders, peers);
    var a := AnnounceAnswer(p, 1, AnnounceReply(interval, leechers, seeders, peers));
    var req := s.announces[i];
    assert Handle(s, p, 1, txn, AnnounceReply(interval, leechers, seeders, peers), now, txns)
        == (AnswerAnnounce(s, i, a), true);
    SuccessIsPassedOn(s, i, a);
    assert SamePeers(a.response.peers, if p < 2 then peers else []);
  }

  lemma SuccessIsPassedOn(s: State, i: nat, a: Answer)
    requires i < |s.announces| && a.success
    ensures var req := s.announces[i];
            AnswerAnnounce(s, i, a).log
            == s.log + [AnnounceAnswered(req.rid, req.data, a), Called(req.data, a.response)]
  {
  }

  // The text of an error reply, or of one that makes no sense.
  ghost predicate ErrorIs(text: string, action: nat, body: seq<Byte>) {
    if action == 3 && body != [] then |text| == |body| && forall i :: 0 <= i < |body| ==> text[i] as int == body[i]
    else text == "Unknown error"
  }

  // Any other reply fails the announce: connected, with a text.
  lemma AnnounceErrorExactly(s: State, p: nat, action: nat, txn: nat, body: seq<Byte>, i: nat, now: nat,
                             txns: (nat, nat))
    requires Wf(s) && p <= 2 && !Awaits(s, p, txn) && FirstAnnounce(s, i, txn) && (action != 1 || |body| < 12)
    ensures var (r, mine) := Handle(s, p, action, txn, body, now, txns);
            var req := s.announces[i];
            && mine && r.channels == s.channels && r.scrapes == s.scrapes
            && r.announces == s.announces[..i] + s.announces[i + 1..]
            && exists text ::
                 var response := Response(true, false, text, 0, None, None, []);
                 && ErrorIs(text, action, body)
                 && Logs(s, r, [AnnounceAnswered(req.rid, req.data, Answer(response, false))])
  {
    FirstAnnounceFound(s, i, txn);
    AnswerAnnounceLogs(s, i, AnnounceAnswer(p, action, body));
    assert ErrorIs(ErrorText(action, body), action, body);
  }

  // ----- replies to a scrape

  // A scrape reply hands its bytes on (UdpWire.FillRows reads them); any other
  // reply fails the scrape with a text.
  lemma ScrapeReplyExactly(s: State, p: nat, action: nat, txn: nat, body: seq<Byte>, i: nat, now: nat, txns: (nat, nat))
    requires Wf(s) && p <= 2 && !Awaits(s, p, txn) && NoAnnounce(s, txn) && FirstScrape(s, i, txn)
    ensures var (r, mine) := Handle(s, p, action, txn, body, now, txns);
            var c := s.scrapes[i];
            && mine && r.channels == s.channels && r.announces == s.announces
            && r.scrapes == s.scrapes[..i] + s.scrapes[i + 1..]
            && (action == 2 ==> r.log == s.log + [ScrapeAnswered(c.rid, c.hasCallback, ScrapeRows(body))])
            && (action != 2 ==>
                  exists text ::
                    && ErrorIs(text, action, body)
                    && r.log == s.log + [ScrapeAnswered(c.rid, c.hasCallback, ScrapeFailed(true, false, text))])
  {
    FirstScrapeFound(s, i, txn);
    assert ErrorIs(ErrorText(action, body), action, body);
  }

  // A message nobody waits for changes nothing.
  lemma StrayReplyExactly(s: State, p: nat, action: nat, txn: nat, body: seq<Byte>, now: nat, txns: (nat, nat))
    requires Wf(s) && p <= 2 && !Awaits(s, p, txn) && NoAnnounce(s, txn) && NoScrape(s, txn)
    ensures Handle(s, p, action, txn, body, now, txns) == (s, false)
  {
  }

  // Row i of a scrape reply, as BEP 15 lays it out, reads back.
  function RowBytes(seeders: nat, downloads: nat, leechers: nat): seq<Byte> {
    Put(seeders, 4) + Put(downloads, 4) + Put(leechers, 4)
  }

  lemma RowReads(before: seq<Byte>, i: nat, seeders: nat, downloads: nat, leechers: nat, rest: seq<Byte>)
    requires |before| == 12 * i
    requires seeders < 0x1_0000_0000 && downloads < 0x1_0000_0000 && leechers < 0x1_0000_0000
    ensures var body := before + RowBytes(seeders, downloads, leechers) + rest;
            12 * i + 12 <= |body| && RowAt(body, i) == Row(Some(seeders), Some(downloads), Some(leechers))
  {
    var body := before + RowBytes(seeders, downloads, leechers) + rest;
    assert body[12 * i..12 * i + 4] == Put(seeders, 4) && body[12 * i + 4..12 * i + 8] == Put(downloads, 4);
    assert body[12 * i + 8..12 * i + 12] == Put(leechers, 4);
    FieldReads(seeders, 4, Put(seeders, 4));
    FieldReads(downloads, 4, Put(downloads, 4));
    FieldReads(leechers, 4, Put(leechers, 4));
  }

  // ----- new requests

  // Main result: an announce queues one request per protocol, IPv4 first, with
  // the transaction IDs drawn and one aggregator, and then everything that can
  // leave does; nothing times out.
  lemma AnnounceExactly(s: State, reqTxns: (nat, nat), now: nat, txns: (nat, nat))
    requires Wf(s)
    ensures var r, lines := DoAnnounce(s, reqTxns, now, txns), LinesOf(s, now);
            var announces := s.announces + [Announce(s.nextRid, reqTxns.0, 0, now, 0, s.nextData),
                                            Announce(s.nextRid + 1, reqTxns.1, 1, now, 0, s.nextData)];
            && r.channels == [Settled(s.channels[0], now, txns.0), Settled(s.channels[1], now, txns.1)]
            && r.announces == AnnouncesTried(announces, lines, now) && r.scrapes == ScrapesTried(s.scrapes, lines, now)
            && Logs(s, r, ReadyEvents(s, now, txns)
                          + (AnnouncesSent(announces, lines, now) + ScrapesSent(s.scrapes, lines, now)))
  {
    var q := QueueAnnounces(s, reqTxns, now);
    UpkeepExactly(q, false, now, txns);
    assert q.announces == s.announces + [Announce(s.nextRid, reqTxns.0, 0, now, 0, s.nextData),
                                         Announce(s.nextRid + 1, reqTxns.1, 1, now, 0, s.nextData)];
    assert ReadyEvents(q, now, txns) + [] == ReadyEvents(s, now, txns);
  }

  lemma ScrapeExactly(s: State, txn: nat, hasCallback: bool, now: nat, txns: (nat, nat))
    requires Wf(s)
    ensures var r, lines := DoScrape(s, txn, hasCallback, now, txns), LinesOf(s, now);
            var scrapes := s.scrapes + [Scrape(s.nextRid, txn, now, 0, hasCallback)];
            && r.channels == [Settled(s.channels[0], now, txns.0), Settled(s.channels[1], now, txns.1)]
            && r.announces == AnnouncesTried(s.announces, lines, now) && r.scrapes == ScrapesTried(scrapes, lines, now)
            && Logs(s, r, ReadyEvents(s, now, txns)
                          + (AnnouncesSent(s.announces, lines, now) + ScrapesSent(scrapes, lines, now)))
  {
    var q := QueueScrape(s, txn, hasCallback, now);
    UpkeepExactly(q, false, now, txns);
    assert ReadyEvents(q, now, txns) + [] == ReadyEvents(s, now, txns);
  }

  // ----- where connection IDs come from

  // The bytes a connection ID is read from.
  function IdBytes(body: seq<Byte>): seq<Byte> {
    if |body| > 8 then body[..8] else body
  }

  // This tick brought the ID: a datagram over its protocol, at its time, whose
  // action is connect and whose bytes are the ID's.
  predicate Brought(t: Tick, e: Event)
    requires e.ConnIdReceived?
  {
    && t.now == e.at && t.input.DatagramIn? && t.input.p == e.p && t.input.action == 0
    && IdBytes(t.input.body) == Put(e.id, |IdBytes(t.input.body)|)
  }

  ghost predicate OnlyBrought(t: Tick, events: seq<Event>) {
    forall e :: e in events && e.ConnIdReceived? ==> Brought(t, e)
  }

  // Events that receive nothing are only about other things.
  lemma OthersAdd(s: State, r: State, events: seq<Event>)
    requires Logs(s, r, events) && NoneReceived(events)
    ensures NoneReceived(r.log[|s.log|..])
  {
    forall x | x in r.log[|s.log|..]
      ensures !x.ConnIdReceived?
    {
      if !x.Called? {
        UncalledHas(r.log[|s.log|..], x);
      }
    }
  }

  lemma AnnounceAdds(s: State, i: nat, a: Answer)
    requires i < |s.announces|
    ensures var r := AnswerAnnounce(s, i, a); s.log <= r.log && NoneReceived(r.log[|s.log|..])
  {
    AnswerAnnounceLogs(s, i, a);
    OthersAdd(s, AnswerAnnounce(s, i, a), [AnnounceAnswered(s.announces[i].rid, s.announces[i].data, a)]);
  }

  lemma ScrapeAdds(s: State, i: nat, result: ScrapeResult)
    requires i < |s.scrapes|
    ensures var r := AnswerScrape(s, i, result); s.log <= r.log && NoneReceived(r.log[|s.log|..])
  {
    AnswerScrapeLogs(s, i, result);
    OthersAdd(s, AnswerScrape(s, i, result), [ScrapeAnswered(s.scrapes[i].rid, s.scrapes[i].hasCallback, result)]);
  }

  lemma HandleAdds(s: State, t: Tick)
    requires Wf(s) && t.input.DatagramIn? && t.input.p <= PROTOCOLS
    ensures var r := Handle(s, t.input.p, t.input.action, t.input.txn, t.input.body, t.now, t.txns).0;
            s.log <= r.log && OnlyBrought(t, r.log[|s.log|..])
  {
    var p, action, txn, body := t.input.p, t.input.action, t.input.txn, t.input.body;
    var a, c := FindAnnounce(s.announces, txn), FindScrape(s.scrapes, txn);
    if p < PROTOCOLS && s.channels[p].connectingAt != 0 && txn == s.channels[p].connectTxn {
      ConnectAdds(s, t);
    } else if a.Some? {
      AnnounceAdds(s, a.value, AnnounceAnswer(p, action, body));
    } else if c.Some? {
      ScrapeAdds(s, c.value, ScrapeReply(action, body));
    }
  }

  lemma ConnectAdds(s: State, t: Tick)
    requires Wf(s) && t.input.DatagramIn? && t.input.p < PROTOCOLS
    ensures var input := t.input;
            var r := OnConnectionResponse(s, input.p, Reply(input.txn), input.action, input.body, t.now, t.txns);
            s.log <= r.log && OnlyBrought(t, r.log[|s.log|..])
  {
    var p, action, body := t.input.p, t.input.action, t.input.body;
    var handled := Handled(EndConnect(s, p, Reply(t.input.txn)), p, action, body, t.now);
    if action == 0 {
      StoredAdds(s, t);
    } else if action == 3 {
      FailureAdds(s, p, Reply(t.input.txn), ConnectError(p, body));
    } else {
      assert handled.log == s.log + [ConnectEnded(p, s.channels[p].connectTxn, Reply(t.input.txn))];
    }
    AddsThenUpkeep(s, handled, t);
  }

  lemma AddsThenUpkeep(s: State, handled: State, t: Tick)
    requires Wf(handled) && s.log <= handled.log && OnlyBrought(t, handled.log[|s.log|..])
    ensures var r := Upkeep(handled, true, t.now, t.txns); s.log <= r.log && OnlyBrought(t, r.log[|s.log|..])
  {
    UpkeepAdds(handled, true, t.now, t.txns);
    var r := Upkeep(handled, true, t.now, t.txns);
    assert r.log[|s.log|..] == handled.log[|s.log|..] + r.log[|handled.log|..];
  }

  lemma StoredAdds(s: State, t: Tick)
    requires Wf(s) && t.input.DatagramIn? && t.input.p < PROTOCOLS && t.input.action == 0
    ensures var ended := EndConnect(s, t.input.p, Reply(t.input.txn));
            var r := Handled(ended, t.input.p, 0, t.input.body, t.now);
            s.log <= r.log && OnlyBrought(t, r.log[|s.log|..])
  {
    var p, body := t.input.p, t.input.body;
    var ended := EndConnect(s, p, Reply(t.input.txn));
    PutGet(IdBytes(body));
    var r := Handled(ended, p, 0, body, t.now);
    assert r.log == s.log + [ConnectEnded(p, s.channels[p].connectTxn, Reply(t.input.txn)),
                             ConnIdReceived(p, Get(IdBytes(body)), t.now)];
  }

  lemma FailureAdds(s: State, p: nat, cause: Cause, text: string)
    requires Wf(s) && p < PROTOCOLS
    ensures var r := FailAll(EndConnect(s, p, cause), text); s.log <= r.log && NoneReceived(r.log[|s.log|..])
  {
    EndAndFail(s, p, cause, text);
    AllToldReceivesNothing(s, text);
    OthersAdd(s, FailAll(EndConnect(s, p, cause), text),
              [ConnectEnded(p, s.channels[p].connectTxn, cause)] + AllTold(s, text));
  }

  lemma StepAdds(s: State, t: Tick)
    requires Wf(s) && Possible(t)
    ensures var r := Step(s, t); s.log <= r.log && OnlyBrought(t, r.log[|s.log|..])
  {
    match t.input
    case AnnounceIn(reqTxns) => UpkeepAdds(QueueAnnounces(s, reqTxns, t.now), false, t.now, t.txns);
    case ScrapeIn(reqTxn, hasCallback) => UpkeepAdds(QueueScrape(s, reqTxn, hasCallback, t.now), false, t.now, t.txns);
    case UpkeepIn => UpkeepAdds(s, true, t.now, t.txns);
    case DnsIn(p, result) => assert Step(s, t).log == s.log;
    case DatagramIn(_, _, _, _) => HandleAdds(s, t);
  }

  lemma StepBrings(s: State, t: Tick, r: State, e: Event)
    requires Wf(s) && Possible(t) && r == Step(s, t) && e in r.log && e.ConnIdReceived?
    ensures e in s.log || Brought(t, e)
  {
    StepAdds(s, t);
    assert r.log == s.log + r.log[|s.log|..];
  }

  lemma {:induction false} IdBrought(ticks: seq<Tick>, k: nat, e: Event) returns (j: nat)
    requires 0 < k <= |ticks| && (forall t :: t in ticks ==> Possible(t))
    requires e in AfterFirst(ticks, k).log && e.ConnIdReceived?
    ensures j < k && Brought(ticks[j], e)
  {
    StepBrings(AfterFirst(ticks, k - 1), ticks[k - 1], AfterFirst(ticks, k), e);
    if Brought(ticks[k - 1], e) {
      j := k - 1;
    } else {
      j := IdBrought(ticks, k - 1, e);
    }
  }

  // Main result: in every run, each connection ID in the log came in a datagram
  // of that moment, over that protocol, as the bytes after its header.
  lemma ConnectionIdsArrive(ticks: seq<Tick>, e: Event)
    requires forall t :: t in ticks ==> Possible(t)
    requires e in After(ticks).log && e.ConnIdReceived?
    ensures exists j :: 0 <= j < |ticks| && Brought(ticks[j], e)
  {
    var j := IdBrought(ticks, |ticks|, e);
  }
}
