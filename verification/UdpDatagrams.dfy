// The numbers in a run's log are the numbers on the wire: transaction IDs fit 32
// bits, connection IDs 64, so every datagram of a run decodes to its event.
module UdpDatagrams {
  import opened Options
  import opened Verdict
  import opened UdpWire
  import opened UdpMachine
  import opened UdpRuns

  // tau_transaction_new() draws 32 bits.
  predicate Fits32(txns: (nat, nat)) {
    txns.0 < 0x1_0000_0000 && txns.1 < 0x1_0000_0000
  }

  predicate Drawn(t: Tick) {
    && Fits32(t.txns)
    && (t.input.AnnounceIn? ==> Fits32(t.input.reqTxns))
    && (t.input.ScrapeIn? ==> t.input.reqTxn < 0x1_0000_0000)
  }

  predicate NarrowEvent(e: Event) {
    match e
    case ConnectSent(_, _, txn, _) => txn < UINT32
    case ConnIdReceived(_, id, _) => id < UINT64
    case AnnounceSent(_, txn, _, _, _, id, _) => txn < UINT32 && id < UINT64
    case ScrapeSent(_, txn, _, _, id, _) => txn < UINT32 && id < UINT64
    case _ => true
  }

  // All IDs a tracker holds or has logged fit their fields.
  ghost predicate Narrow(s: State) {
    && Wf(s) && (forall e :: e in s.log ==> NarrowEvent(e))
    && (forall p :: 0 <= p < PROTOCOLS ==> s.channels[p].connId < UINT64)
    && (forall a :: a in s.announces ==> a.txn < UINT32)
    && (forall c :: c in s.scrapes ==> c.txn < UINT32)
  }

  // ----- single steps

  lemma ChannelNarrow(s: State, p: nat, c: Channel, e: Event)
    requires Narrow(s) && p < PROTOCOLS && c.connId < UINT64 && NarrowEvent(e)
    ensures Narrow(SetChannel(s, p, c)) && Narrow(Log(SetChannel(s, p, c), e))
  {
  }

  lemma ResolveNarrow(s: State, p: nat, now: nat)
    requires Narrow(s) && p < PROTOCOLS
    ensures Narrow(Resolve(s, p, now))
  {
    var c := s.channels[p];
    if c.lookup.Ready? {
      var d := c.(lookup := NoLookup, addrExpires := now + DNS_RETRY);
      ChannelNarrow(s, p, d, Resolved(p, None));
      ChannelNarrow(s, p, d.(addr := c.lookup.result), Resolved(p, c.lookup.result));
    }
  }

  lemma PrepareNarrow(s: State, p: nat, now: nat, txn: nat)
    requires Narrow(s) && p < PROTOCOLS && txn < UINT32
    ensures Narrow(Prepare(s, p, now, txn))
  {
    ChannelNarrow(s, p, s.channels[p].(addr := None, lookup := Looking), Resolved(p, None));
    var t := if s.channels[p].lookup.NoLookup? && s.channels[p].addrExpires <= now then StartLookup(s, p) else s;
    var c := t.channels[p];
    if c.addr.Some? {
      ChannelNarrow(t, p, c.(connectingAt := now, connectTxn := txn), ConnectSent(p, c.addr.value, txn, now));
    }
  }

  lemma AnswerAnnounceNarrow(s: State, i: nat, a: Answer)
    requires Narrow(s) && i < |s.announces|
    ensures Narrow(AnswerAnnounce(s, i, a))
  {
    assert forall x :: x in Without(s.announces, i) ==> x in s.announces;
  }

  lemma AnswerScrapeNarrow(s: State, i: nat, result: ScrapeResult)
    requires Narrow(s) && i < |s.scrapes|
    ensures Narrow(AnswerScrape(s, i, result))
  {
    assert forall x :: x in Without(s.scrapes, i) ==> x in s.scrapes;
  }

  lemma SendAnnounceNarrow(s: State, i: nat, p: nat, now: nat)
    requires Narrow(s) && i < |s.announces| && p < PROTOCOLS && s.channels[p].addr.Some?
    ensures Narrow(SendAnnounce(s, i, p, now))
  {
    assert s.announces[i] in s.announces;
  }

  lemma SendScrapeNarrow(s: State, i: nat, p: nat, now: nat)
    requires Narrow(s) && i < |s.scrapes| && p < PROTOCOLS && s.channels[p].addr.Some?
    ensures Narrow(SendScrape(s, i, p, now))
  {
    assert s.scrapes[i] in s.scrapes;
    assert forall x :: x in Without(s.scrapes, i) ==> x in s.scrapes;
  }

  // ----- loops

  lemma {:induction false} FailScrapesNarrow(s: State, result: ScrapeResult)
    requires Narrow(s)
    ensures Narrow(FailScrapes(s, result))
    decreases |s.scrapes|
  {
    if s.scrapes != [] {
      AnswerScrapeNarrow(s, 0, result);
      FailScrapesNarrow(AnswerScrape(s, 0, result), result);
    }
  }

  lemma {:induction false} FailAnnouncesNarrow(s: State, a: Answer)
    requires Narrow(s)
    ensures Narrow(FailAnnounces(s, a))
    decreases |s.announces|
  {
    if s.announces != [] {
      AnswerAnnounceNarrow(s, 0, a);
      FailAnnouncesNarrow(AnswerAnnounce(s, 0, a), a);
    }
  }

  lemma {:induction false} ExpireAnnouncesNarrow(s: State, i: nat, now: nat)
    requires Narrow(s)
    ensures Narrow(ExpireAnnounces(s, i, now))
    decreases |s.announces| - i
  {
    if i < |s.announces| {
      if s.announces[i].createdAt + ANNOUNCE_TIMEOUT <= now {
        AnswerAnnounceNarrow(s, i, TIMED_OUT);
        ExpireAnnouncesNarrow(AnswerAnnounce(s, i, TIMED_OUT), i, now);
      } else {
        ExpireAnnouncesNarrow(s, i + 1, now);
      }
    }
  }

  lemma {:induction false} ExpireScrapesNarrow(s: State, i: nat, now: nat)
    requires Narrow(s)
    ensures Narrow(ExpireScrapes(s, i, now))
    decreases |s.scrapes| - i
  {
    if i < |s.scrapes| {
      if s.scrapes[i].createdAt + SCRAPE_TIMEOUT <= now {
        AnswerScrapeNarrow(s, i, SCRAPE_TIMED_OUT);
        ExpireScrapesNarrow(AnswerScrape(s, i, SCRAPE_TIMED_OUT), i, now);
      } else {
        ExpireScrapesNarrow(s, i + 1, now);
      }
    }
  }

  lemma {:induction false} SendAnnouncesNarrow(s: State, i: nat, now: nat)
    requires Narrow(s)
    ensures Narrow(SendAnnounces(s, i, now))
    decreases |s.announces| - i
  {
    if i < |s.announces| {
      var route := RouteFor(s, Some(s.announces[i].proto), now);
      if s.announces[i].sentAt != 0 || route == None {
        SendAnnouncesNarrow(s, i + 1, now);
      } else {
        SendAnnounceNarrow(s, i, route.value, now);
        SendAnnouncesNarrow(SendAnnounce(s, i, route.value, now), i + 1, now);
      }
    }
  }

  lemma {:induction false} SendScrapesNarrow(s: State, i: nat, now: nat)
    requires Narrow(s)
    ensures Narrow(SendScrapes(s, i, now))
    decreases |s.scrapes| - i
  {
    if i < |s.scrapes| {
      var route := RouteFor(s, None, now);
      if s.scrapes[i].sentAt != 0 || route == None {
        SendScrapesNarrow(s, i + 1, now);
      } else {
        SendScrapeNarrow(s, i, route.value, now);
        SendScrapesNarrow(SendScrape(s, i, route.value, now), if s.scrapes[i].hasCallback then i + 1 else i, now);
      }
    }
  }

  lemma MaybeSendNarrow(s: State, now: nat)
    requires Narrow(s)
    ensures Narrow(MaybeSend(s, now))
  {
    SendAnnouncesNarrow(s, 0, now);
    SendScrapesNarrow(SendAnnounces(s, 0, now), 0, now);
  }

  // ----- upkeep

  lemma {:induction false} UpkeepNarrow(s: State, timeoutReqs: bool, now: nat, txns: (nat, nat))
    requires Narrow(s) && Fits32(txns)
    ensures Narrow(Upkeep(s, timeoutReqs, now, txns))
    decreases if Idle(s) then 0 else 1, 2
  {
    ResolveNarrow(s, 0, now);
    ResolveNarrow(Resolve(s, 0, now), 1, now);
    var polled := PollDns(s, now);
    if !Idle(polled) {
      PrepareNarrow(polled, 0, now, txns.0);
      PrepareNarrow(Prepare(polled, 0, now, txns.0), 1, now, txns.1);
      var ready := Prepare(Prepare(polled, 0, now, txns.0), 1, now, txns.1);
      if timeoutReqs {
        TimeoutRequestsNarrow(ready, now, txns);
      }
      MaybeSendNarrow(if timeoutReqs then TimeoutRequests(ready, now, txns) else ready, now);
    }
  }

  lemma {:induction false} TimeoutRequestsNarrow(s: State, now: nat, txns: (nat, nat))
    requires Narrow(s) && Fits32(txns)
    ensures Narrow(TimeoutRequests(s, now, txns))
    decreases 1, 1
  {
    TimeoutConnectNarrow(s, 0, now, txns);
    TimeoutConnectNarrow(TimeoutConnect(s, 0, now, txns), 1, now, txns);
    var t := TimeoutConnect(TimeoutConnect(s, 0, now, txns), 1, now, txns);
    ExpireAnnouncesNarrow(t, 0, now);
    ExpireScrapesNarrow(ExpireAnnounces(t, 0, now), 0, now);
  }

  lemma {:induction false} TimeoutConnectNarrow(s: State, p: nat, now: nat, txns: (nat, nat))
    requires Narrow(s) && p < PROTOCOLS && Fits32(txns)
    ensures Narrow(TimeoutConnect(s, p, now, txns))
    decreases 1, 0
  {
    var at := s.channels[p].connectingAt;
    if at != 0 && at + CONNECT_TTL < now {
      OnConnectionResponseNarrow(s, p, Overdue(now), ACTION_ERROR, [], now, txns);
    }
  }

  lemma {:induction false} OnConnectionResponseNarrow(
    s: State, p: nat, cause: Cause, action: nat, body: seq<Byte>, now: nat, txns: (nat, nat))
    requires Narrow(s) && p < PROTOCOLS && Fits32(txns)
    ensures Narrow(OnConnectionResponse(s, p, cause, action, body, now, txns))
    decreases if action == ACTION_ERROR then 0 else 1, 3
  {
    var c := s.channels[p];
    var ended := EndConnect(s, p, cause);
    ChannelNarrow(s, p, c.(connectingAt := 0, connectTxn := 0), ConnectEnded(p, c.connectTxn, cause));
    if action == ACTION_CONNECT {
      var id := Get(if |body| > 8 then body[..8] else body);
      ReadsNarrow(if |body| > 8 then body[..8] else body);
      var d := ended.channels[p].(connId := id, expires := now + CONNECTION_TTL);
      ChannelNarrow(ended, p, d, ConnIdReceived(p, id, now));
    } else if action == ACTION_ERROR {
      var result := ScrapeFailed(true, false, ConnectError(p, body));
      FailScrapesNarrow(ended, result);
      FailAnnouncesNarrow(FailScrapes(ended, result),
                          Answer(EMPTY_RESPONSE.(didConnect := true, errmsg := ConnectError(p, body)), false));
    }
    UpkeepNarrow(Handled(ended, p, action, body, now), true, now, txns);
  }

  // Up to eight bytes make a 64-bit number.
  lemma ReadsNarrow(field: seq<Byte>)
    requires |field| <= 8
    ensures Get(field) < UINT64
  {
    GetBound(field);
    PowGrows(|field|, 8);
    Widths();
  }

  lemma {:induction false} GetBound(field: seq<Byte>)
    ensures Get(field) < Pow256(|field|)
  {
    if field != [] {
      GetBound(field[..|field| - 1]);
    }
  }

  lemma {:induction false} PowGrows(a: nat, b: nat)
    requires a <= b
    ensures Pow256(a) <= Pow256(b)
  {
    if a < b {
      PowGrows(a, b - 1);
    }
  }

  // ----- runs

  lemma StepNarrow(s: State, t: Tick, r: State)
    requires Narrow(s) && Possible(t) && Drawn(t) && r == Step(s, t)
    ensures Narrow(r)
  {
    match t.input
    case AnnounceIn(reqTxns) =>
      assert Narrow(QueueAnnounces(s, reqTxns, t.now));
      UpkeepNarrow(QueueAnnounces(s, reqTxns, t.now), false, t.now, t.txns);
    case ScrapeIn(reqTxn, hasCallback) =>
      assert Narrow(QueueScrape(s, reqTxn, hasCallback, t.now));
      UpkeepNarrow(QueueScrape(s, reqTxn, hasCallback, t.now), false, t.now, t.txns);
    case UpkeepIn =>
      UpkeepNarrow(s, true, t.now, t.txns);
    case DnsIn(p, result) =>
      ChannelNarrow(s, p, s.channels[p].(lookup := Ready(result)), Resolved(p, None));
    case DatagramIn(p, action, txn, body) =>
      HandleNarrow(s, p, action, txn, body, t.now, t.txns);
  }

  lemma HandleNarrow(s: State, p: nat, action: nat, txn: nat, body: seq<Byte>, now: nat, txns: (nat, nat))
    requires Narrow(s) && p <= PROTOCOLS && Fits32(txns)
    ensures Narrow(Handle(s, p, action, txn, body, now, txns).0)
  {
    var a, c := FindAnnounce(s.announces, txn), FindScrape(s.scrapes, txn);
    if p < PROTOCOLS && s.channels[p].connectingAt != 0 && txn == s.channels[p].connectTxn {
      OnConnectionResponseNarrow(s, p, Reply(txn), action, body, now, txns);
    } else if a.Some? {
      AnswerAnnounceNarrow(s, a.value, AnnounceAnswer(p, action, body));
    } else if c.Some? {
      AnswerScrapeNarrow(s, c.value, ScrapeReply(action, body));
    }
  }

  lemma {:induction false} RunsNarrow(ticks: seq<Tick>, k: nat)
    requires k <= |ticks| && forall t :: t in ticks ==> Possible(t) && Drawn(t)
    ensures Narrow(AfterFirst(ticks, k))
  {
    var before, after := AfterFirst(ticks, if k > 0 then k - 1 else 0), AfterFirst(ticks, k);
    if k > 0 {
      RunsNarrow(ticks, k - 1);
      StepNarrow(before, ticks[k - 1], after);
    }
  }

  // Main result: in every run, the bytes of each datagram sent decode, at BEP
  // 15's offsets, to the IDs of the event that logged it.
  lemma SentBytesDecode(ticks: seq<Tick>, i: nat, r: AnnounceRequest, ipv4: Option<seq<Byte>>, hashes: seq<seq<Byte>>)
    requires forall t :: t in ticks ==> Possible(t) && Drawn(t)
    requires i < |After(ticks).log| && InRange(r) && (ipv4.Some? ==> |ipv4.value| == 4)
    ensures match After(ticks).log[i]
            case ConnectSent(_, _, txn, _) =>
              var d := ConnectDatagram(txn);
              Get(d[0..8]) == 0x41727101980 && Get(d[8..12]) == 0 && Get(d[12..16]) == txn
            case AnnounceSent(_, txn, _, _, _, id, _) =>
              var d := AnnounceDatagram(id, txn, r, ipv4);
              |d| == 98 && Get(d[0..8]) == id && Get(d[8..12]) == 1 && Get(d[12..16]) == txn
            case ScrapeSent(_, txn, _, _, id, _) =>
              var d := ScrapeDatagram(id, txn, hashes);
              |d| >= 16 && Get(d[0..8]) == id && Get(d[8..12]) == 2 && Get(d[12..16]) == txn
            case _ => true
  {
    RunsNarrow(ticks, |ticks|);
    var e := After(ticks).log[i];
    assert NarrowEvent(e);
    match e {
      case ConnectSent(_, _, txn, _) => ConnectDecodes(txn);
      case AnnounceSent(_, txn, _, _, _, id, _) => AnnounceDecodes(id, txn, r, ipv4);
      case ScrapeSent(_, txn, _, _, id, _) => ScrapeHeadReads(id, txn, hashes);
      case _ =>
    }
  }

  lemma ScrapeHeadReads(connId: nat, txn: nat, hashes: seq<seq<Byte>>)
    requires connId < UINT64 && txn < UINT32
    ensures var d := ScrapeDatagram(connId, txn, hashes);
            |d| >= 16 && Get(d[0..8]) == connId && Get(d[8..12]) == 2 && Get(d[12..16]) == txn
  {
    var d := ScrapeDatagram(connId, txn, hashes);
    FieldReads(connId, 8, d[0..8]);
    FieldReads(ACTION_SCRAPE, 4, d[8..12]);
    FieldReads(txn, 4, d[12..16]);
  }
}
