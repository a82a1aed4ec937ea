// What upkeep does to requests that have waited too long, and to those that
// have not (libtransmission/announcer-udp.cc).
module UdpTimeouts {
  import opened Options
  import opened Verdict
  import opened UdpWire
  import opened UdpMachine
  import opened UdpRuns

  // ----- timing out

  predicate FreshAnnounce(a: Announce, now: nat) {
    now < a.createdAt + 45
  }

  predicate FreshScrape(c: Scrape, now: nat) {
    now < c.createdAt + 30
  }

  function FreshAnnounces(list: seq<Announce>, now: nat): seq<Announce> {
    if list == [] then []
    else (if FreshAnnounce(list[0], now) then [list[0]] else []) + FreshAnnounces(list[1..], now)
  }

  function FreshScrapes(list: seq<Scrape>, now: nat): seq<Scrape> {
    if list == [] then []
    else (if FreshScrape(list[0], now) then [list[0]] else []) + FreshScrapes(list[1..], now)
  }

  lemma {:induction false} FreshAnnouncesAre(list: seq<Announce>, now: nat)
    ensures forall a :: a in FreshAnnounces(list, now) <==> a in list && FreshAnnounce(a, now)
  {
    if list != [] {
      FreshAnnouncesAre(list[1..], now);
    }
  }

  lemma {:induction false} FreshScrapesAre(list: seq<Scrape>, now: nat)
    ensures forall c :: c in FreshScrapes(list, now) <==> c in list && FreshScrape(c, now)
  {
    if list != [] {
      FreshScrapesAre(list[1..], now);
    }
  }

  // The erasing loop drops exactly the expired announces, in place.
  lemma {:induction false} ExpireDropsAnnounces(s: State, i: nat, now: nat)
    requires i <= |s.announces|
    ensures ExpireAnnounces(s, i, now).announces == s.announces[..i] + FreshAnnounces(s.announces[i..], now)
    decreases |s.announces| - i
  {
    if i < |s.announces| {
      var list := s.announces;
      assert list[i..][1..] == list[i + 1..];
      if list[i].createdAt + ANNOUNCE_TIMEOUT <= now {
        var t := AnswerAnnounce(s, i, TIMED_OUT);
        ExpireDropsAnnounces(t, i, now);
        assert t.announces[..i] == list[..i] && t.announces[i..] == list[i + 1..];
      } else {
        ExpireDropsAnnounces(s, i + 1, now);
        assert list[..i + 1] == list[..i] + [list[i]];
      }
    }
  }

  lemma {:induction false} ExpireDropsScrapes(s: State, i: nat, now: nat)
    requires i <= |s.scrapes|
    ensures ExpireScrapes(s, i, now).scrapes == s.scrapes[..i] + FreshScrapes(s.scrapes[i..], now)
    decreases |s.scrapes| - i
  {
    if i < |s.scrapes| {
      var list := s.scrapes;
      assert list[i..][1..] == list[i + 1..];
      if list[i].createdAt + SCRAPE_TIMEOUT <= now {
        var t := AnswerScrape(s, i, SCRAPE_TIMED_OUT);
        ExpireDropsScrapes(t, i, now);
        assert t.scrapes[..i] == list[..i] && t.scrapes[i..] == list[i + 1..];
      } else {
        ExpireDropsScrapes(s, i + 1, now);
        assert list[..i + 1] == list[..i] + [list[i]];
      }
    }
  }

  predicate ConnectOverdue(s: State, p: nat, now: nat)
    requires Wf(s) && p < PROTOCOLS
  {
    s.channels[p].connectingAt != 0 && s.channels[p].connectingAt + 30 < now
  }

  predicate AnyConnectOverdue(s: State, now: nat)
    requires Wf(s)
  {
    ConnectOverdue(s, 0, now) || ConnectOverdue(s, 1, now)
  }

  // Upkeep of an empty queue leaves it empty and sends nothing.
  lemma IdleUpkeep(s: State, now: nat, txns: (nat, nat))
    requires Wf(s) && Idle(s)
    ensures Upkeep(s, true, now, txns) == PollDns(s, now)
  {
  }

  // An overdue connect: everything pending fails, and that is all.
  lemma OverdueConnect(s: State, p: nat, now: nat, txns: (nat, nat))
    requires Wf(s) && p < PROTOCOLS && ConnectOverdue(s, p, now)
    ensures TimeoutConnect(s, p, now, txns)
            == PollDns(FailAll(EndConnect(s, p, Overdue(now)), ConnectError(p, [])), now)
  {
    var failed := FailAll(EndConnect(s, p, Overdue(now)), ConnectError(p, []));
    assert Handled(EndConnect(s, p, Overdue(now)), p, ACTION_ERROR, [], now) == failed;
    IdleUpkeep(failed, now, txns);
    assert OnConnectionResponse(s, p, Overdue(now), ACTION_ERROR, [], now, txns) == Upkeep(failed, true, now, txns);
  }

  lemma TimeoutConnectOutcome(s: State, p: nat, now: nat, txns: (nat, nat))
    requires Wf(s) && p < PROTOCOLS
    ensures var t := TimeoutConnect(s, p, now, txns);
            if ConnectOverdue(s, p, now) then Idle(t) else t == s
  {
    if ConnectOverdue(s, p, now) {
      OverdueConnect(s, p, now, txns);
    }
  }

  // One overdue connect ends every pending request of both protocols; without
  // one, exactly the requests past their own deadline end.
  lemma TimeoutOutcome(s: State, now: nat, txns: (nat, nat))
    requires Wf(s)
    ensures var t := TimeoutRequests(s, now, txns);
            if AnyConnectOverdue(s, now) then Idle(t)
            else
              && t.announces == FreshAnnounces(s.announces, now) && t.scrapes == FreshScrapes(s.scrapes, now)
              && t.channels == s.channels
  {
    TimeoutConnectOutcome(s, 0, now, txns);
    var t0 := TimeoutConnect(s, 0, now, txns);
    TimeoutConnectOutcome(t0, 1, now, txns);
    var t1 := TimeoutConnect(t0, 1, now, txns);
    ExpireDropsAnnounces(t1, 0, now);
    ExpireDropsScrapes(ExpireAnnounces(t1, 0, now), 0, now);
    assert t1.announces[0..] == t1.announces && t1.scrapes[0..] == t1.scrapes;
  }

  // ----- what polling and preparing leave to send on

  // The address a protocol has once upkeep has polled and prepared: a finished
  // lookup may bring one, a stale one is dropped.
  function AddrNow(c: Channel, now: nat): Option<nat> {
    if c.lookup.Ready? then if c.lookup.result.Some? then c.lookup.result else c.addr
    else if c.lookup.NoLookup? && c.addrExpires <= now then None
    else c.addr
  }

  // A request can leave on the protocol in an upkeep that begins in this state.
  predicate Sendable(s: State, p: nat, now: nat)
    requires Wf(s) && p < PROTOCOLS
  {
    AddrNow(s.channels[p], now).Some? && s.channels[p].connId != 0 && now < s.channels[p].expires
  }

  function Prepared(s: State, now: nat, txns: (nat, nat)): (r: State)
    requires Wf(s)
    ensures Wf(r) && SameQueues(s, r)
  {
    Prepare(Prepare(PollDns(s, now), 0, now, txns.0), 1, now, txns.1)
  }

  // Preparing settles the address, and neither sends nor forgets a connection
  // ID; a connect it sends is not overdue.
  lemma PreparedChannel(s: State, p: nat, now: nat, txn: nat)
    requires Wf(s) && p < PROTOCOLS && !s.channels[p].lookup.Ready?
    ensures var r := Prepare(s, p, now, txn);
            && r.channels == s.channels[p := r.channels[p]]
            && (Usable(r, p, now) <==> Sendable(s, p, now))
            && (ConnectOverdue(r, p, now) <==> ConnectOverdue(s, p, now))
  {
  }

  lemma PolledChannels(s: State, now: nat)
    requires Wf(s)
    ensures var r := PollDns(s, now);
            forall p :: 0 <= p < PROTOCOLS ==>
              && !r.channels[p].lookup.Ready?
              && (Sendable(r, p, now) <==> Sendable(s, p, now))
              && (ConnectOverdue(r, p, now) <==> ConnectOverdue(s, p, now))
  {
  }

  lemma PreparedChannels(s: State, now: nat, txns: (nat, nat))
    requires Wf(s)
    ensures var r := Prepared(s, now, txns);
            forall p :: 0 <= p < PROTOCOLS ==>
              (Usable(r, p, now) <==> Sendable(s, p, now)) && (ConnectOverdue(r, p, now) <==> ConnectOverdue(s, p, now))
  {
    var polled := PollDns(s, now);
    PolledChannels(s, now);
    PreparedChannel(polled, 0, now, txns.0);
    PreparedChannel(Prepare(polled, 0, now, txns.0), 1, now, txns.1);
  }

  // ----- what is sent

  predicate CanRoute(s: State, own: Option<nat>, now: nat)
    requires Wf(s)
  {
    || ((own == None || own == Some(0)) && Usable(s, 0, now))
    || ((own == None || own == Some(1)) && Usable(s, 1, now))
  }

  // A pending announce after the sending loop.
  function Tried(a: Announce, routed: bool, now: nat): Announce {
    if a.sentAt == 0 && routed then a.(sentAt := now) else a
  }

  // A pending scrape after the sending loop, if it is still pending.
  function TriedScrape(c: Scrape, routed: bool, now: nat): seq<Scrape> {
    if c.sentAt != 0 || !routed then [c] else if c.hasCallback then [c.(sentAt := now)] else []
  }

  function TriedAll(list: seq<Announce>, s: State, now: nat): seq<Announce>
    requires Wf(s)
  {
    if list == [] then []
    else [Tried(list[0], CanRoute(s, Some(list[0].proto), now), now)] + TriedAll(list[1..], s, now)
  }

  function TriedScrapes(list: seq<Scrape>, routed: bool, now: nat): seq<Scrape> {
    if list == [] then [] else TriedScrape(list[0], routed, now) + TriedScrapes(list[1..], routed, now)
  }

  lemma {:induction false} TriedAllSame(list: seq<Announce>, s: State, t: State, now: nat)
    requires Wf(s) && Wf(t) && forall p :: 0 <= p < PROTOCOLS ==> Usable(s, p, now) == Usable(t, p, now)
    ensures TriedAll(list, s, now) == TriedAll(list, t, now)
  {
    if list != [] {
      TriedAllSame(list[1..], s, t, now);
    }
  }

  lemma {:induction false} SendAnnouncesTries(s: State, i: nat, now: nat)
    requires Wf(s) && i <= |s.announces|
    ensures SendAnnounces(s, i, now).announces == s.announces[..i] + TriedAll(s.announces[i..], s, now)
    decreases |s.announces| - i
  {
    if i < |s.announces| {
      var list := s.announces;
      var route := RouteFor(s, Some(list[i].proto), now);
      assert list[i..][0] == list[i] && list[i..][1..] == list[i + 1..];
      if list[i].sentAt != 0 || route == None {
        SendAnnouncesTries(s, i + 1, now);
        assert list[..i + 1] == list[..i] + [list[i]];
      } else {
        var t := SendAnnounce(s, i, route.value, now);
        SendAnnouncesTries(t, i + 1, now);
        TriedAllSame(list[i + 1..], s, t, now);
        assert t.announces[..i + 1] == list[..i] + [t.announces[i]] && t.announces[i + 1..] == list[i + 1..];
      }
    }
  }

  lemma {:induction false} SendScrapesTries(s: State, i: nat, now: nat)
    requires Wf(s) && i <= |s.scrapes|
    ensures SendScrapes(s, i, now).scrapes
            == s.scrapes[..i] + TriedScrapes(s.scrapes[i..], CanRoute(s, None, now), now)
    decreases |s.scrapes| - i
  {
    if i < |s.scrapes| {
      var list, routed := s.scrapes, CanRoute(s, None, now);
      var route := RouteFor(s, None, now);
      assert list[i..][0] == list[i] && list[i..][1..] == list[i + 1..];
      if list[i].sentAt != 0 || route == None {
        SendScrapesTries(s, i + 1, now);
        assert list[..i + 1] == list[..i] + [list[i]];
      } else {
        var t := SendScrape(s, i, route.value, now);
        if list[i].hasCallback {
          SendScrapesTries(t, i + 1, now);
          assert t.scrapes[..i + 1] == list[..i] + [t.scrapes[i]] && t.scrapes[i + 1..] == list[i + 1..];
        } else {
          SendScrapesTries(t, i, now);
          assert t.scrapes[..i] == list[..i] && t.scrapes[i..] == list[i + 1..];
        }
      }
    }
  }

  lemma MaybeSendTries(s: State, now: nat)
    requires Wf(s)
    ensures var r := MaybeSend(s, now);
            && r.announces == TriedAll(s.announces, s, now)
            && r.scrapes == TriedScrapes(s.scrapes, CanRoute(s, None, now), now)
  {
    SendAnnouncesTries(s, 0, now);
    var t := SendAnnounces(s, 0, now);
    SendScrapesTries(t, 0, now);
    assert s.announces[0..] == s.announces && s.scrapes[0..] == s.scrapes;
    if s.channels[0].addr == None && s.channels[1].addr == None {
      NothingTried(s.announces, s, now);
      NoScrapeTried(s.scrapes, now);
    }
  }

  lemma {:induction false} NothingTried(list: seq<Announce>, s: State, now: nat)
    requires Wf(s) && !Usable(s, 0, now) && !Usable(s, 1, now)
    ensures TriedAll(list, s, now) == list
  {
    if list != [] {
      NothingTried(list[1..], s, now);
    }
  }

  lemma {:induction false} NoScrapeTried(list: seq<Scrape>, now: nat)
    ensures TriedScrapes(list, false, now) == list
  {
    if list != [] {
      NoScrapeTried(list[1..], now);
    }
  }

  // ----- a whole upkeep, judged by the state it begins in

  // The announces left: the fresh ones, sent if they were not and can be.
  function AnnouncesLeft(s: State, list: seq<Announce>, now: nat): seq<Announce>
    requires Wf(s)
  {
    if list == [] then []
    else
      var a := list[0];
      var sends := a.sentAt == 0 && a.proto < PROTOCOLS && Sendable(s, a.proto, now);
      (if !FreshAnnounce(a, now) then [] else if sends then [a.(sentAt := now)] else [a])
      + AnnouncesLeft(s, list[1..], now)
  }

  // The scrapes left: the fresh ones, but for those sent that nobody waits for.
  function ScrapesLeft(s: State, list: seq<Scrape>, now: nat): seq<Scrape>
    requires Wf(s)
  {
    if list == [] then []
    else
      var c := list[0];
      var sends := c.sentAt == 0 && (Sendable(s, 0, now) || Sendable(s, 1, now));
      (if !FreshScrape(c, now) then []
       else if !sends then [c]
       else if c.hasCallback then [c.(sentAt := now)]
       else [])
      + ScrapesLeft(s, list[1..], now)
  }

  lemma {:induction false} AnnouncesLeftAre(s: State, kept: State, list: seq<Announce>, now: nat)
    requires Wf(s) && Wf(kept) && forall p :: 0 <= p < PROTOCOLS ==> Usable(kept, p, now) == Sendable(s, p, now)
    ensures TriedAll(FreshAnnounces(list, now), kept, now) == AnnouncesLeft(s, list, now)
  {
    if list != [] {
      AnnouncesLeftAre(s, kept, list[1..], now);
      var young, rest := FreshAnnounces(list, now), FreshAnnounces(list[1..], now);
      assert FreshAnnounce(list[0], now) ==> young[0] == list[0] && young[1..] == rest;
      assert !FreshAnnounce(list[0], now) ==> young == rest;
    }
  }

  lemma {:induction false} ScrapesLeftAre(s: State, list: seq<Scrape>, routed: bool, now: nat)
    requires Wf(s) && routed == (Sendable(s, 0, now) || Sendable(s, 1, now))
    ensures TriedScrapes(FreshScrapes(list, now), routed, now) == ScrapesLeft(s, list, now)
  {
    if list != [] {
      ScrapesLeftAre(s, list[1..], routed, now);
      var young, rest := FreshScrapes(list, now), FreshScrapes(list[1..], now);
      assert FreshScrape(list[0], now) ==> young[0] == list[0] && young[1..] == rest;
      assert !FreshScrape(list[0], now) ==> young == rest;
    }
  }

  lemma UpkeepIs(s: State, now: nat, txns: (nat, nat))
    requires Wf(s) && !Idle(s)
    ensures Upkeep(s, true, now, txns) == MaybeSend(TimeoutRequests(Prepared(s, now, txns), now, txns), now)
  {
  }

  // Main result, on the state before the call: an upkeep with requests pending
  // ends all of them if a connect is overdue on either protocol, whenever it was
  // sent. If none is, exactly the requests past their own deadline end, and the
  // others stay but for scrapes sent that nobody waits for.
  lemma UpkeepOutcome(s: State, now: nat, txns: (nat, nat))
    requires Wf(s) && !Idle(s)
    ensures var r := Upkeep(s, true, now, txns);
            if AnyConnectOverdue(s, now) then Idle(r)
            else r.announces == AnnouncesLeft(s, s.announces, now) && r.scrapes == ScrapesLeft(s, s.scrapes, now)
  {
    UpkeepIs(s, now, txns);
    PreparedChannels(s, now, txns);
    var ready := Prepared(s, now, txns);
    var kept := TimeoutRequests(ready, now, txns);
    TimeoutOutcome(ready, now, txns);
    MaybeSendTries(kept, now);
    if !AnyConnectOverdue(s, now) {
      AnnouncesLeftAre(s, kept, s.announces, now);
      ScrapesLeftAre(s, s.scrapes, CanRoute(kept, None, now), now);
    }
  }

  ghost predicate NoneExpired(s: State, now: nat) {
    && (forall a :: a in s.announces ==> FreshAnnounce(a, now))
    && (forall c :: c in s.scrapes ==> FreshScrape(c, now))
  }

  lemma {:induction false} AnnouncesLeftFresh(s: State, list: seq<Announce>, now: nat)
    requires Wf(s)
    ensures forall a :: a in AnnouncesLeft(s, list, now) ==> FreshAnnounce(a, now)
  {
    if list != [] {
      AnnouncesLeftFresh(s, list[1..], now);
    }
  }

  lemma {:induction false} ScrapesLeftFresh(s: State, list: seq<Scrape>, now: nat)
    requires Wf(s)
    ensures forall c :: c in ScrapesLeft(s, list, now) ==> FreshScrape(c, now)
  {
    if list != [] {
      ScrapesLeftFresh(s, list[1..], now);
    }
  }

  // Main result: after an upkeep that times requests out, no pending request
  // has expired.
  lemma UpkeepLeavesNoneExpired(s: State, now: nat, txns: (nat, nat))
    requires Wf(s)
    ensures NoneExpired(Upkeep(s, true, now, txns), now)
  {
    if Idle(s) {
      IdleUpkeep(s, now, txns);
    } else {
      UpkeepOutcome(s, now, txns);
      AnnouncesLeftFresh(s, s.announces, now);
      ScrapesLeftFresh(s, s.scrapes, now);
    }
  }

  // ----- who hears of an overdue connect

  lemma StaysLogged(log: seq<Event>, e: Event, later: seq<Event>)
    requires log + [e] <= later
    ensures e in later && log <= later
  {
    assert later[|log|] == (log + [e])[|log|] == e;
  }

  lemma {:induction false} FailScrapesAnswers(s: State, result: ScrapeResult, i: nat)
    ensures s.log <= FailScrapes(s, result).log
    ensures i < |s.scrapes| ==>
              ScrapeAnswered(s.scrapes[i].rid, s.scrapes[i].hasCallback, result) in FailScrapes(s, result).log
    decreases |s.scrapes|
  {
    if s.scrapes != [] {
      var t := AnswerScrape(s, 0, result);
      FailScrapesAnswers(t, result, if i > 0 then i - 1 else 0);
      StaysLogged(s.log, ScrapeAnswered(s.scrapes[0].rid, s.scrapes[0].hasCallback, result),
                   FailScrapes(t, result).log);
    }
  }

  lemma {:induction false} FailAnnouncesAnswers(s: State, a: Answer, i: nat)
    ensures s.log <= FailAnnounces(s, a).log
    ensures i < |s.announces| ==>
              AnnounceAnswered(s.announces[i].rid, s.announces[i].data, a) in FailAnnounces(s, a).log
    decreases |s.announces|
  {
    if s.announces != [] {
      var t := AnswerAnnounce(s, 0, a);
      FailAnnouncesAnswers(t, a, if i > 0 then i - 1 else 0);
      assert AnnounceAnswered(s.announces[0].rid, s.announces[0].data, a) == t.log[|s.log|];
    }
  }

  // What the requests pending in s hear when all of them fail.
  function AnnounceFailure(s: State, i: nat, errmsg: string): Event
    requires i < |s.announces|
  {
    AnnounceAnswered(s.announces[i].rid, s.announces[i].data,
                     Answer(EMPTY_RESPONSE.(didConnect := true, errmsg := errmsg), false))
  }

  function ScrapeFailure(s: State, i: nat, errmsg: string): Event
    requires i < |s.scrapes|
  {
    ScrapeAnswered(s.scrapes[i].rid, s.scrapes[i].hasCallback, ScrapeFailed(true, false, errmsg))
  }

  ghost predicate AllHear(s: State, log: seq<Event>, errmsg: string) {
    && (forall i :: 0 <= i < |s.announces| ==> AnnounceFailure(s, i, errmsg) in log)
    && (forall i :: 0 <= i < |s.scrapes| ==> ScrapeFailure(s, i, errmsg) in log)
  }

  lemma FailAllAnswers(s: State, errmsg: string)
    ensures AllHear(s, FailAll(s, errmsg).log, errmsg)
  {
    var result := ScrapeFailed(true, false, errmsg);
    var a := Answer(EMPTY_RESPONSE.(didConnect := true, errmsg := errmsg), false);
    var t := FailScrapes(s, result);
    FailAnnouncesAnswers(t, a, 0);
    forall i | 0 <= i < |s.announces|
      ensures AnnounceFailure(s, i, errmsg) in FailAll(s, errmsg).log
    {
      FailAnnouncesAnswers(t, a, i);
    }
    forall i | 0 <= i < |s.scrapes|
      ensures ScrapeFailure(s, i, errmsg) in FailAll(s, errmsg).log
    {
      FailScrapesAnswers(s, result, i);
    }
  }

  lemma HearingStays(s: State, t: State, before: seq<Event>, after: seq<Event>, errmsg: string)
    requires AllHear(s, before, errmsg) && before <= after
    requires t.announces == s.announces && t.scrapes == s.scrapes
    ensures AllHear(t, after, errmsg)
  {
    forall i | 0 <= i < |t.announces|
      ensures AnnounceFailure(t, i, errmsg) in after
    {
      assert AnnounceFailure(s, i, errmsg) in before;
    }
    forall i | 0 <= i < |t.scrapes|
      ensures ScrapeFailure(t, i, errmsg) in after
    {
      assert ScrapeFailure(s, i, errmsg) in before;
    }
  }

  function FirstOverdue(s: State, now: nat): nat
    requires Wf(s)
  {
    if ConnectOverdue(s, 0, now) then 0 else 1
  }

  lemma IdleTimeout(s: State, p: nat, now: nat, txns: (nat, nat))
    requires Wf(s) && Idle(s) && p < PROTOCOLS
    ensures var t := TimeoutConnect(s, p, now, txns); Idle(t) && s.log <= t.log
  {
    if ConnectOverdue(s, p, now) {
      var ended := EndConnect(s, p, Overdue(now));
      assert FailAll(ended, ConnectError(p, [])) == ended;
      OverdueConnect(s, p, now, txns);
    }
  }

  lemma OverdueHeard(s: State, p: nat, now: nat, txns: (nat, nat))
    requires Wf(s) && p < PROTOCOLS && ConnectOverdue(s, p, now)
    ensures AllHear(s, TimeoutConnect(s, p, now, txns).log, ConnectError(p, []))
  {
    var ended := EndConnect(s, p, Overdue(now));
    FailAllAnswers(ended, ConnectError(p, []));
    OverdueConnect(s, p, now, txns);
    HearingStays(ended, s, FailAll(ended, ConnectError(p, [])).log, TimeoutConnect(s, p, now, txns).log,
                 ConnectError(p, []));
  }

  // Every pending request, of either protocol, is told of the first connect
  // that is overdue.
  lemma OverdueAnswersAll(s: State, now: nat, txns: (nat, nat))
    requires Wf(s) && AnyConnectOverdue(s, now)
    ensures AllHear(s, TimeoutRequests(s, now, txns).log, ConnectError(FirstOverdue(s, now), []))
  {
    var p := FirstOverdue(s, now);
    var t0 := TimeoutConnect(s, 0, now, txns);
    var t1 := TimeoutConnect(t0, 1, now, txns);
    OverdueHeard(s, p, now, txns);
    TimeoutConnectOutcome(s, 0, now, txns);
    TimeoutConnectOutcome(t0, 1, now, txns);
    if p == 0 {
      IdleTimeout(t0, 1, now, txns);
      HearingStays(s, s, t0.log, t1.log, ConnectError(p, []));
    }
    assert ExpireScrapes(ExpireAnnounces(t1, 0, now), 0, now) == t1;
  }

  // The same of a whole upkeep.
  lemma OverdueUpkeep(s: State, now: nat, txns: (nat, nat))
    requires Wf(s) && !Idle(s) && AnyConnectOverdue(s, now)
    ensures var after := Upkeep(s, true, now, txns);
            Idle(after) && AllHear(s, after.log, ConnectError(FirstOverdue(s, now), []))
  {
    UpkeepIs(s, now, txns);
    PreparedChannels(s, now, txns);
    var ready := Prepared(s, now, txns);
    OverdueAnswersAll(ready, now, txns);
    TimeoutOutcome(ready, now, txns);
    var t := TimeoutRequests(ready, now, txns);
    assert SendScrapes(SendAnnounces(t, 0, now), 0, now) == t;
    HearingStays(ready, s, t.log, t.log, ConnectError(FirstOverdue(s, now), []));
  }

  // ----- an old connect takes new requests down

  // A run in which an announce fails at second 1001, one second after it was
  // queued and with no connect sent since: the scrape that asked for the
  // connect of second 101 timed out, which left the connect recorded.
  const STALE_RUN: seq<Tick> := [
    Tick(ScrapeIn(5, true), 100, (1, 2)),
    Tick(DnsIn(0, Some(7)), 100, (1, 2)),
    Tick(UpkeepIn, 101, (9, 2)),
    Tick(UpkeepIn, 130, (3, 4)),
    Tick(AnnounceIn((21, 22)), 1000, (3, 4)),
    Tick(UpkeepIn, 1001, (3, 4))
  ]

  const V6 := FRESH_CHANNEL.(lookup := Looking)
  const V4 := Channel(101, 9, 0, 0, NoLookup, Some(7), 3701)
  const OLD_SCRAPE := Scrape(0, 5, 100, 0, true)
  const LOG2 := [Resolved(0, None), Resolved(1, None)]
  const LOG3 := LOG2 + [Resolved(0, Some(7)), ConnectSent(0, 7, 9, 101)]
  const LOG4 := LOG3 + [ScrapeAnswered(0, true, SCRAPE_TIMED_OUT)]
  const S2 := State([V6.(lookup := Ready(Some(7))), V6], [], [OLD_SCRAPE], map[], 1, 0, LOG2)
  const S3 := State([V4, V6], [], [OLD_SCRAPE], map[], 1, 0, LOG3)
  const S4 := State([V4, V6], [], [], map[], 1, 0, LOG4)
  const S5 := State([V4, V6], [Announce(1, 21, 0, 1000, 0, 0), Announce(2, 22, 1, 1000, 0, 0)], [],
                    map[0 := NewAgg(2)], 3, 1, LOG4)

  lemma StaleQueued()
    ensures Step(Step(START, STALE_RUN[0]), STALE_RUN[1]) == S2
  {
    var s1 := Step(START, STALE_RUN[0]);
    assert s1 == State([V6, V6], [], [OLD_SCRAPE], map[], 1, 0, LOG2);
  }

  lemma StaleConnecting()
    ensures Step(S2, STALE_RUN[2]) == S3
  {
    var polled := PollDns(S2, 101);
    var ready := Prepare(Prepare(polled, 0, 101, 9), 1, 101, 2);
    assert ready.log == LOG3;
    assert ready == S3;
    assert ExpireScrapes(S3, 1, 101) == S3 && ExpireScrapes(S3, 0, 101) == S3 && ExpireAnnounces(S3, 0, 101) == S3;
    assert TimeoutConnect(TimeoutConnect(S3, 0, 101, (9, 2)), 1, 101, (9, 2)) == S3;
    assert TimeoutRequests(S3, 101, (9, 2)) == S3;
    assert SendScrapes(S3, 1, 101) == S3 && SendScrapes(S3, 0, 101) == S3 && SendAnnounces(S3, 0, 101) == S3;
  }

  lemma StaleScrapeExpires()
    ensures Step(S3, STALE_RUN[3]) == S4
  {
    assert PollDns(S3, 130) == S3 && Prepare(Prepare(S3, 0, 130, 3), 1, 130, 4) == S3;
    assert AnswerScrape(S3, 0, SCRAPE_TIMED_OUT) == S4;
    assert ExpireAnnounces(S3, 0, 130) == S3;
    assert ExpireScrapes(S4, 0, 130) == S4 && ExpireScrapes(S3, 0, 130) == S4;
    assert TimeoutConnect(TimeoutConnect(S3, 0, 130, (3, 4)), 1, 130, (3, 4)) == S3;
    assert TimeoutRequests(S3, 130, (3, 4)) == S4;
    assert MaybeSend(S4, 130) == S4;
  }

  lemma StaleAnnounceQueued()
    ensures Step(S4, STALE_RUN[4]) == S5
  {
    assert QueueAnnounces(S4, (21, 22), 1000) == S5;
    assert PollDns(S5, 1000) == S5 && Prepare(Prepare(S5, 0, 1000, 3), 1, 1000, 4) == S5;
    assert SendAnnounces(S5, 2, 1000) == S5;
    assert SendAnnounces(S5, 1, 1000) == S5;
    assert MaybeSend(S5, 1000) == S5;
  }

  lemma StaleFails()
    ensures var after := Step(S5, STALE_RUN[5]);
            AnnounceFailure(S5, 0, ConnectError(0, [])) in after.log && Idle(after)
  {
    OverdueUpkeep(S5, 1001, (3, 4));
    assert AnnounceFailure(S5, 0, ConnectError(0, [])) in Upkeep(S5, true, 1001, (3, 4)).log;
  }

  lemma StaleStart()
    ensures forall t :: t in STALE_RUN ==> Possible(t)
    ensures AfterFirst(STALE_RUN, 2) == S2
  {
    assert AfterFirst(STALE_RUN, 0) == START;
    StaleQueued();
  }

  // The connect of second 101 ends the announce of second 1000 at second 1001.
  lemma StaleConnectFailsFresh()
    ensures forall t :: t in STALE_RUN ==> Possible(t)
    ensures AfterFirst(STALE_RUN, 5) == S5 && (forall a :: a in S5.announces ==> FreshAnnounce(a, 1001))
    ensures AnnounceFailure(S5, 0, ConnectError(0, [])) in After(STALE_RUN).log && Idle(After(STALE_RUN))
  {
    StaleStart();
    StaleConnecting();
    assert AfterFirst(STALE_RUN, 3) == S3;
    StaleScrapeExpires();
    assert AfterFirst(STALE_RUN, 4) == S4;
    StaleAnnounceQueued();
    assert AfterFirst(STALE_RUN, 5) == S5;
    StaleFails();
    assert AfterFirst(STALE_RUN, 6) == Step(S5, STALE_RUN[5]);
  }
}
