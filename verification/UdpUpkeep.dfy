// What one upkeep does, in closed form on the state it begins in: every event it
// logs, every channel and both queues afterwards (libtransmission/announcer-udp.cc).
module UdpUpkeep {
  import opened Options
  import opened Verdict
  import opened UdpWire
  import opened UdpMachine
  import opened UdpTimeouts

  // The log without the callbacks, which UdpTheorems.VerdictOfRun accounts for.
  function Uncalled(log: seq<Event>): seq<Event> {
    if log == [] then []
    else
      var e := log[|log| - 1];
      Uncalled(log[..|log| - 1]) + if e.Called? then [] else [e]
  }

  lemma {:induction false} UncalledConcat(a: seq<Event>, b: seq<Event>)
    ensures Uncalled(a + b) == Uncalled(a) + Uncalled(b)
  {
    if b == [] {
      assert a + b == a;
    } else {
      assert (a + b)[..|a + b| - 1] == a + b[..|b| - 1];
      UncalledConcat(a, b[..|b| - 1]);
    }
  }

  // Between s and r these events were logged, callbacks aside.
  predicate Logs(s: State, r: State, events: seq<Event>) {
    s.log <= r.log && Uncalled(r.log[|s.log|..]) == events
  }

  lemma LogsThen(s: State, t: State, r: State, a: seq<Event>, b: seq<Event>)
    requires Logs(s, t, a) && Logs(t, r, b)
    ensures Logs(s, r, a + b)
  {
    assert r.log[|s.log|..] == t.log[|s.log|..] + r.log[|t.log|..];
    UncalledConcat(t.log[|s.log|..], r.log[|t.log|..]);
  }

  lemma LogsOne(s: State, r: State, e: Event)
    requires r.log == s.log + [e] && !e.Called?
    ensures Logs(s, r, [e])
  {
    assert r.log[|s.log|..] == [e] && [e][..0] == [];
  }

  lemma LogsCall(s: State, r: State, e: Event)
    requires r.log == s.log + [e] && e.Called?
    ensures Logs(s, r, [])
  {
    assert r.log[|s.log|..] == [e] && [e][..0] == [];
  }

  // ----- polling and preparing

  // A finished lookup is collected; the next is due in an hour.
  function Polled(c: Channel, now: nat): Channel {
    if !c.lookup.Ready? then c
    else if c.lookup.result.Some? then c.(lookup := NoLookup, addrExpires := now + 3600, addr := c.lookup.result)
    else c.(lookup := NoLookup, addrExpires := now + 3600)
  }

  function PolledEvents(c: Channel, p: nat): seq<Event> {
    if c.lookup.Ready? && c.lookup.result.Some? then [Resolved(p, c.lookup.result)] else []
  }

  // A lookup begins if none is running or ready and the address is stale.
  predicate LooksUp(c: Channel, now: nat) {
    c.lookup.NoLookup? && c.addrExpires <= now
  }

  // A connect is sent if there is an address, no connect under way, and no
  // connection ID that is still good.
  predicate Connects(c: Channel, now: nat) {
    AddrNow(c, now).Some? && c.connectingAt == 0 && (c.connId == 0 || c.expires <= now)
  }

  function PreparedEvents(c: Channel, p: nat, now: nat, txn: nat): seq<Event> {
    (if LooksUp(c, now) then [Resolved(p, None)] else [])
    + if Connects(c, now) then [ConnectSent(p, AddrNow(c, now).value, txn, now)] else []
  }

  // The channel after polling and a new lookup, if one is due.
  function Looked(c: Channel, now: nat): Channel {
    if LooksUp(c, now) then c.(addr := None, lookup := Looking) else Polled(c, now)
  }

  function Settled(c: Channel, now: nat, txn: nat): Channel {
    if Connects(c, now) then Looked(c, now).(connectingAt := now, connectTxn := txn) else Looked(c, now)
  }

  lemma PollExactly(s: State, now: nat)
    requires Wf(s)
    ensures var r := PollDns(s, now);
            && r.channels == [Polled(s.channels[0], now), Polled(s.channels[1], now)]
            && Logs(s, r, PolledEvents(s.channels[0], 0) + PolledEvents(s.channels[1], 1))
  {
    var t := Resolve(s, 0, now);
    ResolveExactly(s, 0, now);
    ResolveExactly(t, 1, now);
    LogsThen(s, t, PollDns(s, now), PolledEvents(s.channels[0], 0), PolledEvents(s.channels[1], 1));
  }

  lemma ResolveExactly(s: State, p: nat, now: nat)
    requires Wf(s) && p < PROTOCOLS
    ensures var r := Resolve(s, p, now);
            r.channels == s.channels[p := Polled(s.channels[p], now)] && Logs(s, r, PolledEvents(s.channels[p], p))
  {
    var c := s.channels[p];
    if c.lookup.Ready? && c.lookup.result.Some? {
      LogsOne(s, Resolve(s, p, now), Resolved(p, c.lookup.result));
    }
  }

  // `c` is the channel before polling.
  lemma PrepareExactly(s: State, c: Channel, p: nat, now: nat, txn: nat)
    requires Wf(s) && p < PROTOCOLS && s.channels[p] == Polled(c, now)
    ensures var r := Prepare(s, p, now, txn);
            r.channels == s.channels[p := Settled(c, now, txn)] && Logs(s, r, PreparedEvents(c, p, now, txn))
  {
    var t := if LooksUp(c, now) then StartLookup(s, p) else s;
    LookupExactly(s, c, p, now);
    ConnectExactly(t, c, p, now, txn);
    LogsThen(s, t, Prepare(s, p, now, txn), if LooksUp(c, now) then [Resolved(p, None)] else [],
             if Connects(c, now) then [ConnectSent(p, AddrNow(c, now).value, txn, now)] else []);
  }

  lemma LookupExactly(s: State, c: Channel, p: nat, now: nat)
    requires Wf(s) && p < PROTOCOLS && s.channels[p] == Polled(c, now)
    ensures s.channels[p].lookup.NoLookup? && s.channels[p].addrExpires <= now <==> LooksUp(c, now)
    ensures var t := if LooksUp(c, now) then StartLookup(s, p) else s;
            && t.channels == s.channels[p := Looked(c, now)]
            && Logs(s, t, if LooksUp(c, now) then [Resolved(p, None)] else [])
  {
    if LooksUp(c, now) {
      LogsOne(s, StartLookup(s, p), Resolved(p, None));
    }
  }

  lemma ConnectExactly(t: State, c: Channel, p: nat, now: nat, txn: nat)
    requires Wf(t) && p < PROTOCOLS && t.channels[p] == Looked(c, now)
    ensures Looked(c, now).addr == AddrNow(c, now)
    ensures var r := if Connects(c, now) then SendConnect(t, p, now, txn) else t;
            && r.channels == t.channels[p := Settled(c, now, txn)]
            && Logs(t, r, if Connects(c, now) then [ConnectSent(p, AddrNow(c, now).value, txn, now)] else [])
  {
    if Connects(c, now) {
      LogsOne(t, SendConnect(t, p, now, txn), ConnectSent(p, AddrNow(c, now).value, txn, now));
    }
  }

  function ReadyEvents(s: State, now: nat, txns: (nat, nat)): seq<Event>
    requires Wf(s)
  {
    PolledEvents(s.channels[0], 0) + PolledEvents(s.channels[1], 1)
    + PreparedEvents(s.channels[0], 0, now, txns.0) + PreparedEvents(s.channels[1], 1, now, txns.1)
  }

  lemma PreparedExactly(s: State, now: nat, txns: (nat, nat))
    requires Wf(s)
    ensures var r := Prepared(s, now, txns);
            && r.channels == [Settled(s.channels[0], now, txns.0), Settled(s.channels[1], now, txns.1)]
            && Logs(s, r, ReadyEvents(s, now, txns))
  {
    var c, d := s.channels[0], s.channels[1];
    var polled := PollDns(s, now);
    var half := Prepare(polled, 0, now, txns.0);
    PollExactly(s, now);
    PrepareExactly(polled, c, 0, now, txns.0);
    PrepareExactly(half, d, 1, now, txns.1);
    var a := PolledEvents(c, 0) + PolledEvents(d, 1);
    LogsThen(s, polled, half, a, PreparedEvents(c, 0, now, txns.0));
    LogsThen(s, half, Prepared(s, now, txns), a + PreparedEvents(c, 0, now, txns.0),
             PreparedEvents(d, 1, now, txns.1));
  }

  // ----- answers

  function AnnouncesTold(list: seq<Announce>, a: Answer): seq<Event> {
    if list == [] then [] else [AnnounceAnswered(list[0].rid, list[0].data, a)] + AnnouncesTold(list[1..], a)
  }

  function ScrapesTold(list: seq<Scrape>, result: ScrapeResult): seq<Event> {
    if list == [] then []
    else [ScrapeAnswered(list[0].rid, list[0].hasCallback, result)] + ScrapesTold(list[1..], result)
  }

  // What everything pending is told when a connect fails: scrapes first.
  function AllTold(s: State, errmsg: string): seq<Event> {
    ScrapesTold(s.scrapes, ScrapeFailed(true, false, errmsg))
    + AnnouncesTold(s.announces, Answer(Response(true, false, errmsg, 0, None, None, []), false))
  }

  lemma AnswerAnnounceLogs(s: State, i: nat, a: Answer)
    requires i < |s.announces|
    ensures Logs(s, AnswerAnnounce(s, i, a), [AnnounceAnswered(s.announces[i].rid, s.announces[i].data, a)])
  {
    var req := s.announces[i];
    var made := Take(if req.data in s.aggs then s.aggs[req.data] else NewAgg(PROTOCOLS), a).1;
    var told := Log(s, AnnounceAnswered(req.rid, req.data, a));
    LogsOne(s, told, AnnounceAnswered(req.rid, req.data, a));
    if made != [] {
      LogsCall(told, AnswerAnnounce(s, i, a), Called(req.data, made[0]));
      LogsThen(s, told, AnswerAnnounce(s, i, a), [AnnounceAnswered(req.rid, req.data, a)], []);
    }
  }

  lemma AnswerScrapeLogs(s: State, i: nat, result: ScrapeResult)
    requires i < |s.scrapes|
    ensures Logs(s, AnswerScrape(s, i, result), [ScrapeAnswered(s.scrapes[i].rid, s.scrapes[i].hasCallback, result)])
  {
    LogsOne(s, AnswerScrape(s, i, result), ScrapeAnswered(s.scrapes[i].rid, s.scrapes[i].hasCallback, result));
  }

  lemma {:induction false} FailScrapesLogs(s: State, result: ScrapeResult)
    ensures Logs(s, FailScrapes(s, result), ScrapesTold(s.scrapes, result))
    decreases |s.scrapes|
  {
    if s.scrapes != [] {
      var t := AnswerScrape(s, 0, result);
      AnswerScrapeLogs(s, 0, result);
      FailScrapesLogs(t, result);
      assert t.scrapes == s.scrapes[1..];
      LogsThen(s, t, FailScrapes(s, result), [ScrapeAnswered(s.scrapes[0].rid, s.scrapes[0].hasCallback, result)],
               ScrapesTold(t.scrapes, result));
    }
  }

  lemma {:induction false} FailAnnouncesLogs(s: State, a: Answer)
    ensures Logs(s, FailAnnounces(s, a), AnnouncesTold(s.announces, a))
    decreases |s.announces|
  {
    if s.announces != [] {
      var t := AnswerAnnounce(s, 0, a);
      AnswerAnnounceLogs(s, 0, a);
      FailAnnouncesLogs(t, a);
      assert t.announces == s.announces[1..];
      LogsThen(s, t, FailAnnounces(s, a), [AnnounceAnswered(s.announces[0].rid, s.announces[0].data, a)],
               AnnouncesTold(t.announces, a));
    }
  }

  lemma FailAllLogs(s: State, errmsg: string)
    ensures Logs(s, FailAll(s, errmsg), AllTold(s, errmsg))
  {
    var result := ScrapeFailed(true, false, errmsg);
    var a := Answer(Response(true, false, errmsg, 0, None, None, []), false);
    var t := FailScrapes(s, result);
    FailScrapesLogs(s, result);
    FailAnnouncesLogs(t, a);
    LogsThen(s, t, FailAll(s, errmsg), ScrapesTold(s.scrapes, result), AnnouncesTold(s.announces, a));
  }

  // What requests past their deadline are told: no connection, a timeout.
  function ExpiredAnnouncesTold(list: seq<Announce>, now: nat): seq<Event> {
    if list == [] then []
    else
      var a := list[0];
      (if a.createdAt + 45 <= now
       then [AnnounceAnswered(a.rid, a.data, Answer(Response(false, true, "", 0, None, None, []), false))]
       else [])
      + ExpiredAnnouncesTold(list[1..], now)
  }

  function ExpiredScrapesTold(list: seq<Scrape>, now: nat): seq<Event> {
    if list == [] then []
    else
      var c := list[0];
      (if c.createdAt + 30 <= now then [ScrapeAnswered(c.rid, c.hasCallback, ScrapeFailed(false, true, ""))] else [])
      + ExpiredScrapesTold(list[1..], now)
  }

  lemma {:induction false} ExpireAnnouncesLogs(s: State, i: nat, now: nat)
    requires i <= |s.announces|
    ensures Logs(s, ExpireAnnounces(s, i, now), ExpiredAnnouncesTold(s.announces[i..], now))
    decreases |s.announces| - i
  {
    if i < |s.announces| {
      var list := s.announces;
      assert list[i..][0] == list[i] && list[i..][1..] == list[i + 1..];
      if list[i].createdAt + 45 <= now {
        var t := AnswerAnnounce(s, i, TIMED_OUT);
        AnswerAnnounceLogs(s, i, TIMED_OUT);
        ExpireAnnouncesLogs(t, i, now);
        assert t.announces[i..] == list[i + 1..];
        LogsThen(s, t, ExpireAnnounces(s, i, now), [AnnounceAnswered(list[i].rid, list[i].data, TIMED_OUT)],
                 ExpiredAnnouncesTold(list[i + 1..], now));
      } else {
        ExpireAnnouncesLogs(s, i + 1, now);
      }
    }
  }

  lemma {:induction false} ExpireScrapesLogs(s: State, i: nat, now: nat)
    requires i <= |s.scrapes|
    ensures Logs(s, ExpireScrapes(s, i, now), ExpiredScrapesTold(s.scrapes[i..], now))
    decreases |s.scrapes| - i
  {
    if i < |s.scrapes| {
      var list := s.scrapes;
      assert list[i..][0] == list[i] && list[i..][1..] == list[i + 1..];
      if list[i].createdAt + 30 <= now {
        var t := AnswerScrape(s, i, SCRAPE_TIMED_OUT);
        AnswerScrapeLogs(s, i, SCRAPE_TIMED_OUT);
        ExpireScrapesLogs(t, i, now);
        assert t.scrapes[i..] == list[i + 1..];
        LogsThen(s, t, ExpireScrapes(s, i, now), [ScrapeAnswered(list[i].rid, list[i].hasCallback, SCRAPE_TIMED_OUT)],
                 ExpiredScrapesTold(list[i + 1..], now));
      } else {
        ExpireScrapesLogs(s, i + 1, now);
      }
    }
  }

  // ----- what is sent

  // The address and connection ID a protocol can send with.
  function LineOf(c: Channel, now: nat): Option<(nat, nat)> {
    if AddrNow(c, now).Some? && c.connId != 0 && now < c.expires then Some((AddrNow(c, now).value, c.connId)) else None
  }

  type Lines = (Option<(nat, nat)>, Option<(nat, nat)>)

  function LinesOf(s: State, now: nat): Lines
    requires Wf(s)
  {
    (LineOf(s.channels[0], now), LineOf(s.channels[1], now))
  }

  function LineFor(lines: Lines, proto: nat): Option<(nat, nat)> {
    if proto == 0 then lines.0 else if proto == 1 then lines.1 else None
  }

  // An announce leaves on its own protocol's line, a scrape on the first there is.
  function AnnouncesSent(list: seq<Announce>, lines: Lines, now: nat): seq<Event> {
    if list == [] then []
    else
      var a := list[0];
      var line := LineFor(lines, a.proto);
      (if a.sentAt == 0 && line.Some?
       then [AnnounceSent(a.rid, a.txn, a.proto, a.proto, line.value.0, line.value.1, now)]
       else [])
      + AnnouncesSent(list[1..], lines, now)
  }

  function ScrapesSent(list: seq<Scrape>, lines: Lines, now: nat): seq<Event> {
    if list == [] then [] else ScrapeSends(list[0], lines, now) + ScrapesSent(list[1..], lines, now)
  }

  function ScrapeSends(c: Scrape, lines: Lines, now: nat): seq<Event> {
    if c.sentAt != 0 || (lines.0 == None && lines.1 == None) then []
    else
      var p := if lines.0.Some? then 0 else 1;
      var line := LineFor(lines, p);
      [ScrapeSent(c.rid, c.txn, p, line.value.0, line.value.1, now)]
      + if c.hasCallback then [] else [ScrapeDropped(c.rid)]
  }

  // The lines of a state in which polling and preparing are done.
  predicate HasLines(s: State, lines: Lines, now: nat)
    requires Wf(s)
  {
    forall p :: 0 <= p < PROTOCOLS ==>
      LineFor(lines, p) == if Usable(s, p, now) then Some((s.channels[p].addr.value, s.channels[p].connId)) else None
  }

  lemma {:induction false} SendAnnouncesLogs(s: State, i: nat, lines: Lines, now: nat)
    requires Wf(s) && i <= |s.announces| && HasLines(s, lines, now)
    ensures Logs(s, SendAnnounces(s, i, now), AnnouncesSent(s.announces[i..], lines, now))
    decreases |s.announces| - i
  {
    if i < |s.announces| {
      var list := s.announces;
      var a := list[i];
      var route := RouteFor(s, Some(a.proto), now);
      assert list[i..][0] == a && list[i..][1..] == list[i + 1..];
      RouteIsLine(s, a.proto, lines, now);
      if a.sentAt != 0 || route == None {
        SendAnnouncesLogs(s, i + 1, lines, now);
      } else {
        var t := SendAnnounce(s, i, route.value, now);
        var line := LineFor(lines, a.proto).value;
        LogsOne(s, t, AnnounceSent(a.rid, a.txn, a.proto, a.proto, line.0, line.1, now));
        SendAnnouncesLogs(t, i + 1, lines, now);
        assert t.announces[i + 1..] == list[i + 1..];
        LogsThen(s, t, SendAnnounces(s, i, now), [AnnounceSent(a.rid, a.txn, a.proto, a.proto, line.0, line.1, now)],
                 AnnouncesSent(list[i + 1..], lines, now));
      }
    }
  }

  lemma RouteIsLine(s: State, proto: nat, lines: Lines, now: nat)
    requires Wf(s) && HasLines(s, lines, now)
    ensures RouteFor(s, Some(proto), now) == if LineFor(lines, proto).Some? then Some(proto) else None
    ensures RouteFor(s, None, now)
         == if lines.0.Some? then Some(0) else if lines.1.Some? then Some(1) else None
  {
    assert LineFor(lines, 0) == lines.0 && LineFor(lines, 1) == lines.1;
  }

  lemma SendScrapeOn(s: State, i: nat, p: nat, addr: nat, id: nat, now: nat)
    requires Wf(s) && i < |s.scrapes| && p < PROTOCOLS
    requires s.channels[p].addr == Some(addr) && s.channels[p].connId == id
    ensures var c := s.scrapes[i];
            Logs(s, SendScrape(s, i, p, now),
                 [ScrapeSent(c.rid, c.txn, p, addr, id, now)] + if c.hasCallback then [] else [ScrapeDropped(c.rid)])
  {
    var c := s.scrapes[i];
    var e := ScrapeSent(c.rid, c.txn, p, addr, id, now);
    var sent := Log(s, e);
    LogsOne(s, sent, e);
    if !c.hasCallback {
      LogsOne(sent, SendScrape(s, i, p, now), ScrapeDropped(c.rid));
      LogsThen(s, sent, SendScrape(s, i, p, now), [e], [ScrapeDropped(c.rid)]);
    }
  }

  lemma SendScrapeLogs(s: State, i: nat, lines: Lines, now: nat)
    requires Wf(s) && i < |s.scrapes| && HasLines(s, lines, now) && s.scrapes[i].sentAt == 0
    requires RouteFor(s, None, now).Some?
    ensures Logs(s, SendScrape(s, i, RouteFor(s, None, now).value, now), ScrapeSends(s.scrapes[i], lines, now))
  {
    var p := RouteFor(s, None, now).value;
    RouteIsLine(s, 0, lines, now);
    SendScrapeOn(s, i, p, LineFor(lines, p).value.0, LineFor(lines, p).value.1, now);
  }

  lemma {:induction false} SendScrapesLogs(s: State, i: nat, lines: Lines, now: nat)
    requires Wf(s) && i <= |s.scrapes| && HasLines(s, lines, now)
    ensures Logs(s, SendScrapes(s, i, now), ScrapesSent(s.scrapes[i..], lines, now))
    decreases |s.scrapes| - i
  {
    if i < |s.scrapes| {
      var list := s.scrapes;
      var route := RouteFor(s, None, now);
      assert list[i..][0] == list[i] && list[i..][1..] == list[i + 1..];
      RouteIsLine(s, 0, lines, now);
      if list[i].sentAt != 0 || route == None {
        SendScrapesLogs(s, i + 1, lines, now);
      } else {
        var t := SendScrape(s, i, route.value, now);
        var next := if list[i].hasCallback then i + 1 else i;
        SendScrapeLogs(s, i, lines, now);
        SendScrapesLogs(t, next, lines, now);
        assert t.scrapes[next..] == list[i + 1..];
        LogsThen(s, t, SendScrapes(s, i, now), ScrapeSends(list[i], lines, now),
                 ScrapesSent(list[i + 1..], lines, now));
      }
    }
  }

  lemma MaybeSendLogs(s: State, lines: Lines, now: nat)
    requires Wf(s) && HasLines(s, lines, now)
    ensures Logs(s, MaybeSend(s, now), AnnouncesSent(s.announces, lines, now) + ScrapesSent(s.scrapes, lines, now))
  {
    var t := SendAnnounces(s, 0, now);
    SendAnnouncesLogs(s, 0, lines, now);
    SendScrapesLogs(t, 0, lines, now);
    assert s.announces[0..] == s.announces && s.scrapes[0..] == s.scrapes;
    LogsThen(s, t, SendScrapes(t, 0, now), AnnouncesSent(s.announces, lines, now), ScrapesSent(s.scrapes, lines, now));
    if s.channels[0].addr == None && s.channels[1].addr == None {
      assert LineFor(lines, 0) == None && LineFor(lines, 1) == None;
      NoneSent(s.announces, s.scrapes, lines, now);
    }
  }

  lemma {:induction false} NoneSent(announces: seq<Announce>, scrapes: seq<Scrape>, lines: Lines, now: nat)
    requires lines.0 == None && lines.1 == None
    ensures AnnouncesSent(announces, lines, now) == [] && ScrapesSent(scrapes, lines, now) == []
    decreases |announces| + |scrapes|
  {
    if announces != [] {
      NoneSent(announces[1..], scrapes, lines, now);
    } else if scrapes != [] {
      NoneSent(announces, scrapes[1..], lines, now);
    }
  }

  // ----- timing out

  predicate Late(c: Channel, now: nat) {
    c.connectingAt != 0 && c.connectingAt + 30 < now
  }

  // What a failed connect says: the tracker's text, or which protocol failed.
  lemma ConnectErrorIs(p: nat, body: seq<Byte>)
    requires p < PROTOCOLS
    ensures body == [] && p == 0 ==> ConnectError(p, body) == "IPv4 connection failed"
    ensures body == [] && p == 1 ==> ConnectError(p, body) == "IPv6 connection failed"
    ensures body != [] ==> |ConnectError(p, body)| == |body|
                           && forall i :: 0 <= i < |body| ==> ConnectError(p, body)[i] as int == body[i]
  {
    assert "IPv4" + " connection failed" == "IPv4 connection failed";
    assert "IPv6" + " connection failed" == "IPv6 connection failed";
  }

  function EndEvent(c: Channel, p: nat, now: nat): Event {
    ConnectEnded(p, c.connectTxn, Overdue(now))
  }

  function Ended(c: Channel, now: nat): Channel {
    if Late(c, now) then c.(connectingAt := 0, connectTxn := 0) else c
  }

  // The first late connect fails everything; without one, what has expired ends.
  function TimeoutEvents(s: State, now: nat): seq<Event>
    requires Wf(s)
  {
    var c, d := s.channels[0], s.channels[1];
    if Late(c, now) then
      [EndEvent(c, 0, now)] + AllTold(s, ConnectError(0, [])) + if Late(d, now) then [EndEvent(d, 1, now)] else []
    else if Late(d, now) then [EndEvent(d, 1, now)] + AllTold(s, ConnectError(1, []))
    else ExpiredAnnouncesTold(s.announces, now) + ExpiredScrapesTold(s.scrapes, now)
  }

  predicate NoneReady(s: State)
    requires Wf(s)
  {
    !s.channels[0].lookup.Ready? && !s.channels[1].lookup.Ready?
  }

  lemma TimeoutConnectExactly(s: State, p: nat, now: nat, txns: (nat, nat))
    requires Wf(s) && p < PROTOCOLS && NoneReady(s) && Late(s.channels[p], now)
    ensures var t := TimeoutConnect(s, p, now, txns);
            && t.channels == s.channels[p := Ended(s.channels[p], now)] && Idle(t)
            && Logs(s, t, [EndEvent(s.channels[p], p, now)] + AllTold(s, ConnectError(p, [])))
  {
    OverdueConnect(s, p, now, txns);
    EndAndFail(s, p, UdpMachine.Overdue(now), ConnectError(p, []));
  }

  // Ending a connect and failing everything, with any cause and any text.
  lemma EndAndFail(s: State, p: nat, cause: Cause, text: string)
    requires Wf(s) && p < PROTOCOLS
    ensures var t := FailAll(EndConnect(s, p, cause), text);
            && t.channels == s.channels[p := s.channels[p].(connectingAt := 0, connectTxn := 0)]
            && Logs(s, t, [ConnectEnded(p, s.channels[p].connectTxn, cause)] + AllTold(s, text))
  {
    var ended := EndConnect(s, p, cause);
    LogsOne(s, ended, ConnectEnded(p, s.channels[p].connectTxn, cause));
    FailAllLogs(ended, text);
    SameTold(ended, s, text);
    LogsThen(s, ended, FailAll(ended, text), [ConnectEnded(p, s.channels[p].connectTxn, cause)], AllTold(s, text));
  }

  lemma SameTold(s: State, t: State, errmsg: string)
    requires s.announces == t.announces && s.scrapes == t.scrapes
    ensures AllTold(s, errmsg) == AllTold(t, errmsg)
  {
  }

  lemma OnTimeConnect(s: State, p: nat, now: nat, txns: (nat, nat))
    requires Wf(s) && p < PROTOCOLS && !Late(s.channels[p], now)
    ensures TimeoutConnect(s, p, now, txns) == s
  {
    TimeoutConnectOutcome(s, p, now, txns);
  }

  lemma TimeoutExactly(s: State, now: nat, txns: (nat, nat))
    requires Wf(s) && NoneReady(s)
    ensures var t := TimeoutRequests(s, now, txns);
            && t.channels == [Ended(s.channels[0], now), Ended(s.channels[1], now)]
            && Logs(s, t, TimeoutEvents(s, now))
  {
    var c, d := s.channels[0], s.channels[1];
    var t0 := TimeoutConnect(s, 0, now, txns);
    var t1 := TimeoutConnect(t0, 1, now, txns);
    if Late(c, now) {
      TimeoutConnectExactly(s, 0, now, txns);
      LateTwice(s, t0, now, txns);
    } else {
      OnTimeConnect(s, 0, now, txns);
      if Late(d, now) {
        TimeoutConnectExactly(s, 1, now, txns);
      } else {
        OnTimeConnect(s, 1, now, txns);
      }
    }
    ExpireLogs(t1, now);
    if Late(c, now) || Late(d, now) {
      assert ExpireScrapes(ExpireAnnounces(t1, 0, now), 0, now) == t1;
    }
  }

  // The second protocol's late connect, when the first one's has failed everything.
  lemma LateTwice(s: State, t: State, now: nat, txns: (nat, nat))
    requires Wf(s) && Wf(t) && NoneReady(t) && Idle(t) && t.channels[1] == s.channels[1]
    requires Late(s.channels[0], now) && Logs(s, t, [EndEvent(s.channels[0], 0, now)] + AllTold(s, ConnectError(0, [])))
    ensures var r := TimeoutConnect(t, 1, now, txns);
            && r.channels == t.channels[1 := Ended(t.channels[1], now)] && Idle(r)
            && Logs(s, r, TimeoutEvents(s, now))
  {
    var first := [EndEvent(s.channels[0], 0, now)] + AllTold(s, ConnectError(0, []));
    if Late(t.channels[1], now) {
      TimeoutConnectExactly(t, 1, now, txns);
      assert AllTold(t, ConnectError(1, [])) == [];
      LogsThen(s, t, TimeoutConnect(t, 1, now, txns), first, [EndEvent(s.channels[1], 1, now)]);
    } else {
      OnTimeConnect(t, 1, now, txns);
      assert first + [] == first;
    }
  }

  lemma ExpireLogs(s: State, now: nat)
    ensures var t := ExpireScrapes(ExpireAnnounces(s, 0, now), 0, now);
            Logs(s, t, ExpiredAnnouncesTold(s.announces, now) + ExpiredScrapesTold(s.scrapes, now))
  {
    var t := ExpireAnnounces(s, 0, now);
    ExpireAnnouncesLogs(s, 0, now);
    ExpireScrapesLogs(t, 0, now);
    assert s.announces[0..] == s.announces && s.scrapes[0..] == s.scrapes;
    LogsThen(s, t, ExpireScrapes(t, 0, now), ExpiredAnnouncesTold(s.announces, now),
             ExpiredScrapesTold(s.scrapes, now));
  }

  // ----- the queues

  function AnnouncesTried(list: seq<Announce>, lines: Lines, now: nat): seq<Announce> {
    if list == [] then []
    else
      var a := list[0];
      [if a.sentAt == 0 && LineFor(lines, a.proto).Some? then a.(sentAt := now) else a]
      + AnnouncesTried(list[1..], lines, now)
  }

  // A scrape nobody waits for is gone once it is sent.
  function ScrapesTried(list: seq<Scrape>, lines: Lines, now: nat): seq<Scrape> {
    if list == [] then []
    else
      var c := list[0];
      (if c.sentAt != 0 || (lines.0 == None && lines.1 == None) then [c]
       else if c.hasCallback then [c.(sentAt := now)]
       else [])
      + ScrapesTried(list[1..], lines, now)
  }

  lemma {:induction false} AnnouncesTriedAre(list: seq<Announce>, s: State, lines: Lines, now: nat)
    requires Wf(s) && HasLines(s, lines, now)
    ensures TriedAll(list, s, now) == AnnouncesTried(list, lines, now)
  {
    if list != [] {
      AnnouncesTriedAre(list[1..], s, lines, now);
      RouteIsLine(s, list[0].proto, lines, now);
    }
  }

  lemma {:induction false} ScrapesTriedAre(list: seq<Scrape>, routed: bool, lines: Lines, now: nat)
    requires routed == (lines.0.Some? || lines.1.Some?)
    ensures TriedScrapes(list, routed, now) == ScrapesTried(list, lines, now)
  {
    if list != [] {
      ScrapesTriedAre(list[1..], routed, lines, now);
    }
  }

  // The requests an upkeep does not end.
  function AnnouncesKept(s: State, timeoutReqs: bool, now: nat): seq<Announce>
    requires Wf(s)
  {
    if !timeoutReqs then s.announces
    else if Late(s.channels[0], now) || Late(s.channels[1], now) then []
    else FreshAnnounces(s.announces, now)
  }

  function ScrapesKept(s: State, timeoutReqs: bool, now: nat): seq<Scrape>
    requires Wf(s)
  {
    if !timeoutReqs then s.scrapes
    else if Late(s.channels[0], now) || Late(s.channels[1], now) then []
    else FreshScrapes(s.scrapes, now)
  }

  // ----- the whole upkeep

  function ChannelAfter(c: Channel, timeoutReqs: bool, now: nat, txn: nat): Channel {
    if timeoutReqs then Ended(Settled(c, now, txn), now) else Settled(c, now, txn)
  }

  function UpkeepEvents(s: State, timeoutReqs: bool, now: nat, txns: (nat, nat)): seq<Event>
    requires Wf(s)
  {
    ReadyEvents(s, now, txns) + (if timeoutReqs then TimeoutEvents(s, now) else [])
    + (AnnouncesSent(AnnouncesKept(s, timeoutReqs, now), LinesOf(s, now), now)
       + ScrapesSent(ScrapesKept(s, timeoutReqs, now), LinesOf(s, now), now))
  }

  predicate QueuesAre(r: State, announces: seq<Announce>, scrapes: seq<Scrape>) {
    r.announces == announces && r.scrapes == scrapes
  }

  lemma SettledLine(c: Channel, now: nat, txn: nat)
    ensures var d := Settled(c, now, txn);
            && !d.lookup.Ready? && d.addr == AddrNow(c, now) && d.connId == c.connId && d.expires == c.expires
            && (Late(d, now) <==> Late(c, now)) && (Late(c, now) ==> d.connectTxn == c.connectTxn)
  {
  }

  // Main result: everything an upkeep with requests pending does, on the state
  // before it.
  lemma UpkeepExactly(s: State, timeoutReqs: bool, now: nat, txns: (nat, nat))
    requires Wf(s) && !Idle(s)
    ensures var r, lines := Upkeep(s, timeoutReqs, now, txns), LinesOf(s, now);
            && r.channels == [ChannelAfter(s.channels[0], timeoutReqs, now, txns.0),
                              ChannelAfter(s.channels[1], timeoutReqs, now, txns.1)]
            && r.announces == AnnouncesTried(AnnouncesKept(s, timeoutReqs, now), lines, now)
            && r.scrapes == ScrapesTried(ScrapesKept(s, timeoutReqs, now), lines, now)
            && Logs(s, r, UpkeepEvents(s, timeoutReqs, now, txns))
  {
    KeptExactly(s, timeoutReqs, now, txns);
    SendRest(s, KeptState(s, timeoutReqs, now, txns), timeoutReqs, now, txns);
  }

  // The state in which the sending begins.
  function KeptState(s: State, timeoutReqs: bool, now: nat, txns: (nat, nat)): (r: State)
    requires Wf(s)
    ensures Wf(r)
  {
    var ready := Prepared(s, now, txns);
    if timeoutReqs then TimeoutRequests(ready, now, txns) else ready
  }

  lemma KeptExactly(s: State, timeoutReqs: bool, now: nat, txns: (nat, nat))
    requires Wf(s)
    ensures var kept := KeptState(s, timeoutReqs, now, txns);
            && kept.channels == [ChannelAfter(s.channels[0], timeoutReqs, now, txns.0),
                                 ChannelAfter(s.channels[1], timeoutReqs, now, txns.1)]
            && QueuesAre(kept, AnnouncesKept(s, timeoutReqs, now), ScrapesKept(s, timeoutReqs, now))
            && Logs(s, kept, ReadyEvents(s, now, txns) + if timeoutReqs then TimeoutEvents(s, now) else [])
  {
    var ready := Prepared(s, now, txns);
    PreparedExactly(s, now, txns);
    SettledLine(s.channels[0], now, txns.0);
    SettledLine(s.channels[1], now, txns.1);
    if timeoutReqs {
      TimeoutExactly(ready, now, txns);
      TimeoutOutcome(ready, now, txns);
      SameTimeouts(s, ready, now);
      LogsThen(s, ready, TimeoutRequests(ready, now, txns), ReadyEvents(s, now, txns), TimeoutEvents(s, now));
    } else {
      assert ReadyEvents(s, now, txns) + [] == ReadyEvents(s, now, txns);
    }
  }

  lemma SameTimeouts(s: State, ready: State, now: nat)
    requires Wf(s) && Wf(ready) && SameQueues(s, ready)
    requires forall p :: 0 <= p < PROTOCOLS ==>
               && (Late(ready.channels[p], now) <==> Late(s.channels[p], now))
               && (Late(s.channels[p], now) ==> ready.channels[p].connectTxn == s.channels[p].connectTxn)
    ensures TimeoutEvents(ready, now) == TimeoutEvents(s, now)
  {
    SameTold(s, ready, ConnectError(0, []));
    SameTold(s, ready, ConnectError(1, []));
  }

  lemma SendRest(s: State, kept: State, timeoutReqs: bool, now: nat, txns: (nat, nat))
    requires Wf(s) && Wf(kept)
    requires kept.channels == [ChannelAfter(s.channels[0], timeoutReqs, now, txns.0),
                               ChannelAfter(s.channels[1], timeoutReqs, now, txns.1)]
    requires QueuesAre(kept, AnnouncesKept(s, timeoutReqs, now), ScrapesKept(s, timeoutReqs, now))
    requires Logs(s, kept, ReadyEvents(s, now, txns) + if timeoutReqs then TimeoutEvents(s, now) else [])
    ensures var r, lines := MaybeSend(kept, now), LinesOf(s, now);
            && r.announces == AnnouncesTried(AnnouncesKept(s, timeoutReqs, now), lines, now)
            && r.scrapes == ScrapesTried(ScrapesKept(s, timeoutReqs, now), lines, now)
            && Logs(s, r, UpkeepEvents(s, timeoutReqs, now, txns))
  {
    var lines := LinesOf(s, now);
    SettledLine(s.channels[0], now, txns.0);
    SettledLine(s.channels[1], now, txns.1);
    assert HasLines(kept, lines, now);
    MaybeSendTries(kept, now);
    AnnouncesTriedAre(kept.announces, kept, lines, now);
    RouteIsLine(kept, 0, lines, now);
    ScrapesTriedAre(kept.scrapes, CanRoute(kept, None, now), lines, now);
    MaybeSendLogs(kept, lines, now);
    LogsThen(s, kept, MaybeSend(kept, now),
             ReadyEvents(s, now, txns) + (if timeoutReqs then TimeoutEvents(s, now) else []),
             AnnouncesSent(kept.announces, lines, now) + ScrapesSent(kept.scrapes, lines, now));
  }

  // With nothing pending, an upkeep only collects lookups.
  lemma IdleExactly(s: State, timeoutReqs: bool, now: nat, txns: (nat, nat))
    requires Wf(s) && Idle(s)
    ensures var r := Upkeep(s, timeoutReqs, now, txns);
            && r.channels == [Polled(s.channels[0], now), Polled(s.channels[1], now)] && Idle(r)
            && Logs(s, r, PolledEvents(s.channels[0], 0) + PolledEvents(s.channels[1], 1))
  {
    PollExactly(s, now);
  }

  // What a lookup found is the address from the next upkeep on, for an hour; a
  // lookup that found nothing leaves the old one.
  lemma LookupArrives(s: State, p: nat, result: Option<nat>, timeoutReqs: bool, now: nat, txns: (nat, nat))
    requires Wf(s) && p < PROTOCOLS && s.channels[p].lookup.Looking?
    ensures var d := Upkeep(DnsDone(s, p, result), timeoutReqs, now, txns).channels[p];
            && d.addr == (if result.Some? then result else s.channels[p].addr)
            && d.addrExpires == now + 3600 && d.lookup.NoLookup?
  {
    var t := DnsDone(s, p, result);
    if Idle(t) {
      IdleExactly(t, timeoutReqs, now, txns);
    } else {
      UpkeepExactly(t, timeoutReqs, now, txns);
    }
  }

  // ----- who connects and who looks up

  predicate Prepares(e: Event) {
    e.ConnectSent? || e.Resolved?
  }

  ghost predicate NonePrepares(events: seq<Event>) {
    forall e :: e in events ==> !Prepares(e)
  }

  lemma {:induction false} ToldPrepareNothing(announces: seq<Announce>, scrapes: seq<Scrape>, a: Answer,
                                             result: ScrapeResult, now: nat)
    ensures NonePrepares(AnnouncesTold(announces, a)) && NonePrepares(ScrapesTold(scrapes, result))
    ensures NonePrepares(ExpiredAnnouncesTold(announces, now)) && NonePrepares(ExpiredScrapesTold(scrapes, now))
    decreases |announces| + |scrapes|
  {
    if announces != [] {
      ToldPrepareNothing(announces[1..], scrapes, a, result, now);
    } else if scrapes != [] {
      ToldPrepareNothing(announces, scrapes[1..], a, result, now);
    }
  }

  lemma {:induction false} SentPrepareNothing(announces: seq<Announce>, scrapes: seq<Scrape>, lines: Lines, now: nat)
    ensures NonePrepares(AnnouncesSent(announces, lines, now)) && NonePrepares(ScrapesSent(scrapes, lines, now))
    decreases |announces| + |scrapes|
  {
    if announces != [] {
      SentPrepareNothing(announces[1..], scrapes, lines, now);
    } else if scrapes != [] {
      SentPrepareNothing(announces, scrapes[1..], lines, now);
    }
  }

  lemma TimeoutsPrepareNothing(s: State, now: nat)
    requires Wf(s)
    ensures NonePrepares(TimeoutEvents(s, now))
  {
    forall p: nat
      ensures NonePrepares(AllTold(s, ConnectError(p, [])))
    {
      var text := ConnectError(p, []);
      ToldPrepareNothing(s.announces, s.scrapes, Answer(Response(true, false, text, 0, None, None, []), false),
                         ScrapeFailed(true, false, text), now);
    }
    ToldPrepareNothing(s.announces, s.scrapes, TIMED_OUT, SCRAPE_TIMED_OUT, now);
  }

  lemma {:induction false} UncalledHas(log: seq<Event>, e: Event)
    requires !e.Called?
    ensures e in Uncalled(log) <==> e in log
  {
    if log != [] {
      UncalledHas(log[..|log| - 1], e);
      assert log == log[..|log| - 1] + [log[|log| - 1]];
    }
  }

  lemma PreparesOnly(s: State, timeoutReqs: bool, now: nat, txns: (nat, nat), e: Event)
    requires Wf(s) && Prepares(e)
    ensures e in UpkeepEvents(s, timeoutReqs, now, txns) <==> e in ReadyEvents(s, now, txns)
  {
    TimeoutsPrepareNothing(s, now);
    SentPrepareNothing(AnnouncesKept(s, timeoutReqs, now), ScrapesKept(s, timeoutReqs, now), LinesOf(s, now), now);
  }

  // Whether an event is among those of one channel.
  lemma ChannelPrepares(c: Channel, p: nat, now: nat, txn: nat, e: Event)
    requires Prepares(e)
    ensures e in PolledEvents(c, p) <==> c.lookup.Ready? && c.lookup.result.Some? && e == Resolved(p, c.lookup.result)
    ensures e in PreparedEvents(c, p, now, txn) <==>
              || (LooksUp(c, now) && e == Resolved(p, None))
              || (Connects(c, now) && e == ConnectSent(p, AddrNow(c, now).value, txn, now))
  {
  }

  lemma ReadyHas(s: State, now: nat, txns: (nat, nat), p: nat, e: Event)
    requires Wf(s) && p < PROTOCOLS && Prepares(e) && e.p == p && (e.Resolved? ==> e.found == None)
    ensures var c, txn := s.channels[p], if p == 0 then txns.0 else txns.1;
            e in ReadyEvents(s, now, txns) <==>
              || (LooksUp(c, now) && e == Resolved(p, None))
              || (Connects(c, now) && e == ConnectSent(p, AddrNow(c, now).value, txn, now))
  {
    ChannelPrepares(s.channels[0], 0, now, txns.0, e);
    ChannelPrepares(s.channels[1], 1, now, txns.1, e);
  }

  // Main result, per protocol, on the state before an upkeep with requests
  // pending: it sends a connect exactly if there is an address, no connect is
  // under way, and the connection ID is missing or no longer good; and it begins
  // a lookup exactly if none is running or ready and the address is stale.
  lemma ReconnectsIff(s: State, timeoutReqs: bool, now: nat, txns: (nat, nat), p: nat, addr: nat, txn: nat, at: nat)
    requires Wf(s) && !Idle(s) && p < PROTOCOLS
    ensures var c, r := s.channels[p], Upkeep(s, timeoutReqs, now, txns);
            && s.log <= r.log
            && (ConnectSent(p, addr, txn, at) in r.log[|s.log|..] <==>
                  && AddrNow(c, now) == Some(addr) && c.connectingAt == 0 && (c.connId == 0 || c.expires <= now)
                  && txn == (if p == 0 then txns.0 else txns.1) && at == now)
            && (Resolved(p, None) in r.log[|s.log|..] <==> c.lookup.NoLookup? && c.addrExpires <= now)
  {
    var r := Upkeep(s, timeoutReqs, now, txns);
    UpkeepExactly(s, timeoutReqs, now, txns);
    var connect, lookup := ConnectSent(p, addr, txn, at), Resolved(p, None);
    UncalledHas(r.log[|s.log|..], connect);
    UncalledHas(r.log[|s.log|..], lookup);
    PreparesOnly(s, timeoutReqs, now, txns, connect);
    PreparesOnly(s, timeoutReqs, now, txns, lookup);
    ReadyHas(s, now, txns, p, connect);
    ReadyHas(s, now, txns, p, lookup);
  }
}
