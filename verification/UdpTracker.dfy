// The UDP tracker as the object of libtransmission/announcer-udp.cc. Every method
// is proved to take the step UdpMachine describes and to keep the invariant of
// UdpSafety, so what UdpTheorems says of runs holds of the object.
module UdpTracker {
  import opened Options
  import opened Verdict
  import opened UdpWire
  import opened UdpMachine
  import opened UdpRuns
  import opened UdpSafety

  // struct tau_tracker
  class Tracker {
    const authority: string
    const channels: array<Channel>
    var announces: seq<Announce>
    var scrapes: seq<Scrape>
    // The tau_announce_data objects the announces point to.
    var aggs: map<nat, Agg>
    var nextRid: nat
    var nextData: nat
    ghost var log: seq<Event>

    ghost predicate Valid()
    {
      channels.Length == PROTOCOLS
    }

    ghost function View(): (s: State)
      requires Valid()
      reads this, channels
      ensures Wf(s)
    {
      State(channels[..], announces, scrapes, aggs, nextRid, nextData, log)
    }

    constructor (authority: string)
      ensures Valid() && View() == START && this.authority == authority && fresh(channels)
    {
      this.authority := authority;
      channels := new Channel[PROTOCOLS](i => FRESH_CHANNEL);
      announces, scrapes, aggs, nextRid, nextData, log := [], [], map[], 0, 0, [];
    }

    predicate IsIdle()
      reads this
    {
      announces == [] && scrapes == []
    }

    // ----- upkeep()

    method PollDnsRequests(now: nat)
      requires Valid()
      modifies channels, this`log
      ensures View() == PollDns(old(View()), now)
    {
      ghost var s := View();
      for p := 0 to PROTOCOLS
        invariant p == 0 ==> View() == s
        invariant p == 1 ==> View() == Resolve(s, 0, now)
        invariant p == 2 ==> View() == PollDns(s, now)
      {
        var c := channels[p];
        if c.lookup.Ready? {
          if c.lookup.result.Some? {
            channels[p] := channels[p].(addr := c.lookup.result);
            log := log + [Resolved(p, c.lookup.result)];
          }
          channels[p] := channels[p].(lookup := NoLookup);
          channels[p] := channels[p].(addrExpires := now + DNS_RETRY);
        }
      }
    }

    method PrepareChannel(p: nat, now: nat, txn: nat)
      requires Valid() && p < PROTOCOLS
      modifies channels, this`log
      ensures View() == Prepare(old(View()), p, now, txn)
    {
      if channels[p].lookup.NoLookup? && channels[p].addrExpires <= now {
        channels[p] := channels[p].(addr := None);
        channels[p] := channels[p].(lookup := Looking);
        log := log + [Resolved(p, None)];
      }
      if channels[p].addr.Some? && !IsConnected(channels[p], now) && channels[p].connectingAt == 0 {
        channels[p] := channels[p].(connectingAt := now);
        channels[p] := channels[p].(connectTxn := txn);
        log := log + [ConnectSent(p, channels[p].addr.value, txn, now)];
      }
    }

    method Upkeep(timeoutReqs: bool, now: nat, txns: (nat, nat))
      requires Valid()
      modifies this, channels
      ensures View() == UdpMachine.Upkeep(old(View()), timeoutReqs, now, txns)
      decreases if IsIdle() then 0 else 1, 2
    {
      PollDnsRequests(now);
      if IsIdle() {
        return;
      }
      PrepareChannel(0, now, txns.0);
      PrepareChannel(1, now, txns.1);
      if timeoutReqs {
        TimeoutRequests(now, txns);
      }
      MaybeSendRequests(now);
    }

    // ----- answers

    // tau_announce_data::on_response()
    method OnAnnounceData(data: nat, a: Answer)
      modifies this`aggs, this`log
      ensures var (g, made) := Take(if data in old(aggs) then old(aggs)[data] else NewAgg(PROTOCOLS), a);
              && aggs == old(aggs)[data := g]
              && log == if made == [] then old(log) else old(log) + [Called(data, made[0])]
    {
      var g := if data in aggs then aggs[data] else NewAgg(PROTOCOLS);
      g := g.(answered := Inc8(g.answered));
      var gotAll := g.answered == g.sent;
      if a.success {
        log := log + [Called(data, a.response)];
        g := g.(succeeded := true);
      } else if !g.succeeded {
        if g.failed == None || CompareFailed(g.failed.value, a.response) < 0 {
          g := g.(failed := Some(a.response));
        }
        if gotAll {
          log := log + [Called(data, g.failed.value)];
        }
      }
      aggs := aggs[data := g];
    }

    // Announce i is told of its answer; it stays in the queue.
    method TellAnnounce(i: nat, a: Answer)
      requires Valid() && i < |announces|
      modifies this`aggs, this`log
      ensures View() == AnswerAnnounce(old(View()), i, a).(announces := announces)
    {
      log := log + [AnnounceAnswered(announces[i].rid, announces[i].data, a)];
      OnAnnounceData(announces[i].data, a);
    }

    // tau_scrape_request::request_finished(), for scrape i
    method TellScrape(i: nat, result: ScrapeResult)
      requires Valid() && i < |scrapes|
      modifies this`log
      ensures View() == AnswerScrape(old(View()), i, result).(scrapes := scrapes)
    {
      log := log + [ScrapeAnswered(scrapes[i].rid, scrapes[i].hasCallback, result)];
    }

    // fail_all()
    method FailEverything(errmsg: string)
      requires Valid()
      modifies this`announces, this`scrapes, this`aggs, this`log
      ensures View() == FailAll(old(View()), errmsg)
    {
      ghost var s := View();
      var result := ScrapeFailed(true, false, errmsg);
      var i := 0;
      while i < |scrapes|
        invariant i <= |scrapes| && scrapes == s.scrapes && announces == s.announces
        invariant FailScrapes(View().(scrapes := scrapes[i..]), result) == FailScrapes(s, result)
      {
        ghost var v := View().(scrapes := scrapes[i..]);
        TellScrape(i, result);
        assert AnswerScrape(v, 0, result) == View().(scrapes := scrapes[i + 1..]);
        i := i + 1;
      }
      var a := Answer(EMPTY_RESPONSE.(didConnect := true, errmsg := errmsg), false);
      ghost var t := View().(scrapes := []);
      i := 0;
      while i < |announces|
        invariant i <= |announces| && announces == t.announces
        invariant FailAnnounces(View().(scrapes := [], announces := announces[i..]), a) == FailAnnounces(t, a)
      {
        ghost var v := View().(scrapes := [], announces := announces[i..]);
        TellAnnounce(i, a);
        assert AnswerAnnounce(v, 0, a) == View().(scrapes := [], announces := announces[i + 1..]);
        i := i + 1;
      }
      scrapes := [];
      announces := [];
    }

    // ----- timeout_requests()

    method TimeoutAnnounces(now: nat)
      requires Valid()
      modifies this`announces, this`aggs, this`log
      ensures View() == ExpireAnnounces(old(View()), 0, now)
    {
      var i := 0;
      while i < |announces|
        invariant i <= |announces|
        invariant ExpireAnnounces(View(), i, now) == ExpireAnnounces(old(View()), 0, now)
        decreases |announces| - i
      {
        if announces[i].createdAt + ANNOUNCE_TIMEOUT <= now {
          TellAnnounce(i, TIMED_OUT);
          announces := Without(announces, i);
        } else {
          i := i + 1;
        }
      }
    }

    method TimeoutScrapes(now: nat)
      requires Valid()
      modifies this`scrapes, this`log
      ensures View() == ExpireScrapes(old(View()), 0, now)
    {
      var i := 0;
      while i < |scrapes|
        invariant i <= |scrapes|
        invariant ExpireScrapes(View(), i, now) == ExpireScrapes(old(View()), 0, now)
        decreases |scrapes| - i
      {
        if scrapes[i].createdAt + SCRAPE_TIMEOUT <= now {
          TellScrape(i, SCRAPE_TIMED_OUT);
          scrapes := Without(scrapes, i);
        } else {
          i := i + 1;
        }
      }
    }

    method TimeoutRequests(now: nat, txns: (nat, nat))
      requires Valid()
      modifies this, channels
      ensures View() == UdpMachine.TimeoutRequests(old(View()), now, txns)
      decreases 1, 1
    {
      TimeoutConnect(0, now, txns);
      TimeoutConnect(1, now, txns);
      TimeoutAnnounces(now);
      TimeoutScrapes(now);
    }

    method TimeoutConnect(p: nat, now: nat, txns: (nat, nat))
      requires Valid() && p < PROTOCOLS
      modifies this, channels
      ensures View() == UdpMachine.TimeoutConnect(old(View()), p, now, txns)
      decreases 1, 0
    {
      var at := channels[p].connectingAt;
      if at != 0 && at + CONNECT_TTL < now {
        OnConnectionResponse(p, Overdue(now), ACTION_ERROR, [], now, txns);
      }
    }

    method OnConnectionResponse(p: nat, ghost cause: Cause, action: nat, body: seq<Byte>, now: nat, txns: (nat, nat))
      requires Valid() && p < PROTOCOLS
      modifies this, channels
      ensures View() == UdpMachine.OnConnectionResponse(old(View()), p, cause, action, body, now, txns)
      decreases if action == ACTION_ERROR then 0 else 1, 3
    {
      CloseConnect(p, cause);
      if action == ACTION_CONNECT {
        StoreConnId(p, Get(if |body| > 8 then body[..8] else body), now);
      } else if action == ACTION_ERROR {
        FailEverything(ConnectError(p, body));
      }
      Upkeep(true, now, txns);
    }

    method CloseConnect(p: nat, ghost cause: Cause)
      requires Valid() && p < PROTOCOLS
      modifies channels, this`log
      ensures View() == EndConnect(old(View()), p, cause)
    {
      log := log + [ConnectEnded(p, channels[p].connectTxn, cause)];
      channels[p] := channels[p].(connectingAt := 0);
      channels[p] := channels[p].(connectTxn := 0);
    }

    method StoreConnId(p: nat, id: nat, now: nat)
      requires Valid() && p < PROTOCOLS
      modifies channels, this`log
      ensures View() == ReceiveConnId(old(View()), p, id, now)
    {
      channels[p] := channels[p].(connId := id);
      channels[p] := channels[p].(expires := now + CONNECTION_TTL);
      log := log + [ConnIdReceived(p, id, now)];
    }

    // ----- maybe_send_requests()

    // maybe_send_request(): which protocol a request goes out on, if any.
    method Route(own: Option<nat>, now: nat) returns (route: Option<nat>)
      requires Valid()
      ensures route == RouteFor(View(), own, now)
    {
      var p := 0;
      while p < PROTOCOLS
        invariant p <= PROTOCOLS
        invariant p > 0 ==> !((own == None || own == Some(0)) && Usable(View(), 0, now))
        invariant p > 1 ==> !((own == None || own == Some(1)) && Usable(View(), 1, now))
      {
        if channels[p].addr.Some? && (own == None || own == Some(p)) && IsConnected(channels[p], now) {
          return Some(p);
        }
        p := p + 1;
      }
      route := None;
    }

    method SendPendingAnnounces(now: nat)
      requires Valid()
      modifies this`announces, this`log
      ensures View() == SendAnnounces(old(View()), 0, now)
    {
      var i := 0;
      while i < |announces|
        invariant i <= |announces|
        invariant SendAnnounces(View(), i, now) == SendAnnounces(old(View()), 0, now)
      {
        var route := Route(Some(announces[i].proto), now);
        if announces[i].sentAt == 0 && route.Some? {
          var c := channels[route.value];
          var req := announces[i];
          log := log + [AnnounceSent(req.rid, req.txn, req.proto, route.value, c.addr.value, c.connId, now)];
          announces := announces[i := announces[i].(sentAt := now)];
        }
        i := i + 1;
      }
    }

    method SendPendingScrapes(now: nat)
      requires Valid()
      modifies this`scrapes, this`log
      ensures View() == SendScrapes(old(View()), 0, now)
    {
      var i := 0;
      while i < |scrapes|
        invariant i <= |scrapes|
        invariant SendScrapes(View(), i, now) == SendScrapes(old(View()), 0, now)
        decreases |scrapes| - i
      {
        var route := Route(None, now);
        if scrapes[i].sentAt != 0 || route == None {
          i := i + 1;
        } else {
          var kept := SendOneScrape(i, route.value, now);
          if kept {
            i := i + 1;
          }
        }
      }
    }

    method SendOneScrape(i: nat, p: nat, now: nat) returns (kept: bool)
      requires Valid() && i < |scrapes| && p < PROTOCOLS && channels[p].addr.Some?
      modifies this`scrapes, this`log
      ensures View() == SendScrape(old(View()), i, p, now) && kept == old(scrapes[i].hasCallback)
    {
      log := log + [ScrapeSent(scrapes[i].rid, scrapes[i].txn, p, channels[p].addr.value, channels[p].connId, now)];
      kept := scrapes[i].hasCallback;
      if kept {
        scrapes := scrapes[i := scrapes[i].(sentAt := now)];
      } else {
        log := log + [ScrapeDropped(scrapes[i].rid)];
        scrapes := Without(scrapes, i);
      }
    }

    method MaybeSendRequests(now: nat)
      requires Valid()
      modifies this`announces, this`scrapes, this`log
      ensures View() == MaybeSend(old(View()), now)
    {
      if channels[0].addr == None && channels[1].addr == None {
        return;
      }
      SendPendingAnnounces(now);
      SendPendingScrapes(now);
    }

    // ----- what the announcer asks of a tracker

    method Announce(reqTxns: (nat, nat), now: nat, txns: (nat, nat))
      requires Valid()
      modifies this, channels
      ensures View() == DoAnnounce(old(View()), reqTxns, now, txns)
      ensures now > 0 && Inv(old(View())) ==> Inv(View())
    {
      ghost var was := View();
      announces := announces + [UdpMachine.Announce(nextRid, reqTxns.0, 0, now, 0, nextData)];
      announces := announces + [UdpMachine.Announce(nextRid + 1, reqTxns.1, 1, now, 0, nextData)];
      aggs := aggs[nextData := NewAgg(PROTOCOLS)];
      nextRid, nextData := nextRid + 2, nextData + 1;
      assert View() == QueueAnnounces(was, reqTxns, now);
      Upkeep(false, now, txns);
      KeepsInv(was, Tick(AnnounceIn(reqTxns), now, txns));
    }

    method Scrape(txn: nat, hasCallback: bool, now: nat, txns: (nat, nat))
      requires Valid()
      modifies this, channels
      ensures View() == DoScrape(old(View()), txn, hasCallback, now, txns)
      ensures now > 0 && Inv(old(View())) ==> Inv(View())
    {
      ghost var was := View();
      scrapes := scrapes + [UdpMachine.Scrape(nextRid, txn, now, 0, hasCallback)];
      nextRid := nextRid + 1;
      assert View() == QueueScrape(was, txn, hasCallback, now);
      Upkeep(false, now, txns);
      KeepsInv(was, Tick(ScrapeIn(txn, hasCallback), now, txns));
    }

    method LookupDone(p: nat, result: Option<nat>)
      requires Valid() && p < PROTOCOLS
      modifies channels
      ensures View() == DnsDone(old(View()), p, result)
      ensures Inv(old(View())) ==> Inv(View())
    {
      ghost var was := View();
      if Inv(was) {
        DnsDoneKeeps(was, p, result);
      }
      if channels[p].lookup.Looking? {
        channels[p] := channels[p].(lookup := Ready(result));
      }
    }

    // The periodic upkeep.
    method Pulse(now: nat, txns: (nat, nat))
      requires Valid()
      modifies this, channels
      ensures View() == UdpMachine.Upkeep(old(View()), true, now, txns)
      ensures now > 0 && Inv(old(View())) ==> Inv(View())
    {
      ghost var was := View();
      Upkeep(true, now, txns);
      KeepsInv(was, Tick(UpkeepIn, now, txns));
    }

    // One round of the loop in handle_message().
    method Handle(p: nat, action: nat, txn: nat, body: seq<Byte>, now: nat, txns: (nat, nat)) returns (mine: bool)
      requires Valid() && p <= PROTOCOLS
      modifies this, channels
      ensures (View(), mine) == UdpMachine.Handle(old(View()), p, action, txn, body, now, txns)
      ensures !mine ==> View() == old(View())
      ensures now > 0 && Inv(old(View())) ==> Inv(View())
    {
      ghost var was := View();
      mine := Dispatch(p, action, txn, body, now, txns);
      KeepsInv(was, Tick(DatagramIn(p, action, txn, body), now, txns));
    }

    method Dispatch(p: nat, action: nat, txn: nat, body: seq<Byte>, now: nat, txns: (nat, nat)) returns (mine: bool)
      requires Valid() && p <= PROTOCOLS
      modifies this, channels
      ensures (View(), mine) == UdpMachine.Handle(old(View()), p, action, txn, body, now, txns)
      ensures !mine ==> View() == old(View())
    {
      if p < PROTOCOLS && channels[p].connectingAt != 0 && txn == channels[p].connectTxn {
        OnConnectionResponse(p, Reply(txn), action, body, now, txns);
        return true;
      }
      var a := FindAnnounce(announces, txn);
      if a.Some? {
        TellAnnounce(a.value, AnnounceAnswer(p, action, body));
        announces := Without(announces, a.value);
        return true;
      }
      var c := FindScrape(scrapes, txn);
      if c.Some? {
        TellScrape(c.value, ScrapeReply(action, body));
        scrapes := Without(scrapes, c.value);
        return true;
      }
      return false;
    }
  }

  lemma KeepsInv(s: State, t: Tick)
    requires Wf(s) && (t.now > 0 ==> Possible(t))
    ensures t.now > 0 && Inv(s) ==> Inv(Step(s, t))
  {
    if t.now > 0 && Inv(s) {
      StepKeeps(s, t);
    }
  }
}
