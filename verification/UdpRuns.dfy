// Whole runs of a UDP tracker: the invariant of UdpSafety holds after any
// sequence of announces, scrapes, upkeeps, DNS results and datagrams, and what
// follows from it.
module UdpRuns {
  import opened Options
  import opened Verdict
  import opened UdpWire
  import opened UdpMachine
  import opened UdpSafety

  // ----- loops keep the invariant

  lemma PollKeeps(s: State, now: nat)
    requires Inv(s)
    ensures Inv(PollDns(s, now))
  {
    ResolveKeeps(s, 0, now);
    ResolveKeeps(Resolve(s, 0, now), 1, now);
  }

  lemma PrepareKeeps(s: State, p: nat, now: nat, txn: nat)
    requires Inv(s) && p < PROTOCOLS && now > 0
    ensures Inv(Prepare(s, p, now, txn))
  {
    var t := if s.channels[p].lookup.NoLookup? && s.channels[p].addrExpires <= now then StartLookup(s, p) else s;
    if t != s {
      StartLookupKeeps(s, p);
    }
    var c := t.channels[p];
    if c.addr.Some? && !IsConnected(c, now) && c.connectingAt == 0 {
      SendConnectKeeps(t, p, now, txn);
    }
  }

  lemma {:induction false} FailScrapesKeeps(s: State, result: ScrapeResult)
    requires Inv(s)
    ensures Inv(FailScrapes(s, result))
    decreases |s.scrapes|
  {
    if s.scrapes != [] {
      AnswerScrapeKeeps(s, 0, result);
      FailScrapesKeeps(AnswerScrape(s, 0, result), result);
    }
  }

  lemma {:induction false} FailAnnouncesKeeps(s: State, a: Answer)
    requires Inv(s)
    ensures Inv(FailAnnounces(s, a))
    decreases |s.announces|
  {
    if s.announces != [] {
      AnswerAnnounceKeeps(s, 0, a);
      FailAnnouncesKeeps(AnswerAnnounce(s, 0, a), a);
    }
  }

  lemma FailAllKeeps(s: State, errmsg: string)
    requires Inv(s)
    ensures Inv(FailAll(s, errmsg))
  {
    var result := ScrapeFailed(true, false, errmsg);
    FailScrapesKeeps(s, result);
    FailAnnouncesKeeps(FailScrapes(s, result), Answer(EMPTY_RESPONSE.(didConnect := true, errmsg := errmsg), false));
  }

  lemma {:induction false} ExpireAnnouncesKeeps(s: State, i: nat, now: nat)
    requires Inv(s)
    ensures Inv(ExpireAnnounces(s, i, now))
    decreases |s.announces| - i
  {
    if i < |s.announces| {
      if s.announces[i].createdAt + ANNOUNCE_TIMEOUT <= now {
        AnswerAnnounceKeeps(s, i, TIMED_OUT);
        ExpireAnnouncesKeeps(AnswerAnnounce(s, i, TIMED_OUT), i, now);
      } else {
        ExpireAnnouncesKeeps(s, i + 1, now);
      }
    }
  }

  lemma {:induction false} ExpireScrapesKeeps(s: State, i: nat, now: nat)
    requires Inv(s)
    ensures Inv(ExpireScrapes(s, i, now))
    decreases |s.scrapes| - i
  {
    if i < |s.scrapes| {
      if s.scrapes[i].createdAt + SCRAPE_TIMEOUT <= now {
        AnswerScrapeKeeps(s, i, SCRAPE_TIMED_OUT);
        ExpireScrapesKeeps(AnswerScrape(s, i, SCRAPE_TIMED_OUT), i, now);
      } else {
        ExpireScrapesKeeps(s, i + 1, now);
      }
    }
  }

  lemma {:induction false} SendAnnouncesKeeps(s: State, i: nat, now: nat)
    requires Inv(s) && now > 0
    ensures Inv(SendAnnounces(s, i, now))
    decreases |s.announces| - i
  {
    if i < |s.announces| {
      assert UnsentAnnounce(s, i);
      var route := RouteFor(s, Some(s.announces[i].proto), now);
      if s.announces[i].sentAt != 0 || route == None {
        SendAnnouncesKeeps(s, i + 1, now);
      } else {
        AnnounceSendKeeps(s, i, now);
        SendAnnouncesKeeps(SendAnnounce(s, i, route.value, now), i + 1, now);
      }
    }
  }

  lemma {:induction false} SendScrapesKeeps(s: State, i: nat, now: nat)
    requires Inv(s) && now > 0
    ensures Inv(SendScrapes(s, i, now))
    decreases |s.scrapes| - i
  {
    if i < |s.scrapes| {
      var route := RouteFor(s, None, now);
      if s.scrapes[i].sentAt != 0 || route == None {
        SendScrapesKeeps(s, i + 1, now);
      } else {
        ScrapeSendKeeps(s, i, route.value, now);
        SendScrapesKeeps(SendScrape(s, i, route.value, now), if s.scrapes[i].hasCallback then i + 1 else i, now);
      }
    }
  }

  lemma MaybeSendKeeps(s: State, now: nat)
    requires Inv(s) && now > 0
    ensures Inv(MaybeSend(s, now))
  {
    SendAnnouncesKeeps(s, 0, now);
    SendScrapesKeeps(SendAnnounces(s, 0, now), 0, now);
  }

  // ----- upkeep keeps the invariant

  lemma {:induction false} UpkeepKeeps(s: State, timeoutReqs: bool, now: nat, txns: (nat, nat))
    requires Inv(s) && now > 0
    ensures Inv(Upkeep(s, timeoutReqs, now, txns))
    decreases if Idle(s) then 0 else 1, 2
  {
    PollKeeps(s, now);
    var polled := PollDns(s, now);
    if !Idle(polled) {
      PrepareKeeps(polled, 0, now, txns.0);
      PrepareKeeps(Prepare(polled, 0, now, txns.0), 1, now, txns.1);
      var ready := Prepare(Prepare(polled, 0, now, txns.0), 1, now, txns.1);
      if timeoutReqs {
        TimeoutRequestsKeeps(ready, now, txns);
      }
      MaybeSendKeeps(if timeoutReqs then TimeoutRequests(ready, now, txns) else ready, now);
    }
  }

  lemma {:induction false} TimeoutRequestsKeeps(s: State, now: nat, txns: (nat, nat))
    requires Inv(s) && now > 0
    ensures Inv(TimeoutRequests(s, now, txns))
    decreases 1, 1
  {
    TimeoutConnectKeeps(s, 0, now, txns);
    TimeoutConnectKeeps(TimeoutConnect(s, 0, now, txns), 1, now, txns);
    var t := TimeoutConnect(TimeoutConnect(s, 0, now, txns), 1, now, txns);
    ExpireAnnouncesKeeps(t, 0, now);
    ExpireScrapesKeeps(ExpireAnnounces(t, 0, now), 0, now);
  }

  lemma {:induction false} TimeoutConnectKeeps(s: State, p: nat, now: nat, txns: (nat, nat))
    requires Inv(s) && p < PROTOCOLS && now > 0
    ensures Inv(TimeoutConnect(s, p, now, txns))
    decreases 1, 0
  {
    var at := s.channels[p].connectingAt;
    if at != 0 && at + CONNECT_TTL < now {
      OnConnectionResponseKeeps(s, p, Overdue(now), ACTION_ERROR, [], now, txns);
    }
  }

  lemma {:induction false} OnConnectionResponseKeeps(
    s: State, p: nat, cause: Cause, action: nat, body: seq<Byte>, now: nat, txns: (nat, nat))
    requires Inv(s) && p < PROTOCOLS && now > 0 && EndsConnect(s.channels[p], cause)
    requires action == ACTION_CONNECT ==> cause.Reply?
    ensures Inv(OnConnectionResponse(s, p, cause, action, body, now, txns))
    decreases if action == ACTION_ERROR then 0 else 1, 3
  {
    var ended := EndConnect(s, p, cause);
    EndConnectKeeps(s, p, cause);
    if action == ACTION_CONNECT {
      ReceiveConnIdKeeps(ended, p, Get(if |body| > 8 then body[..8] else body), now);
    } else if action == ACTION_ERROR {
      FailAllKeeps(ended, ConnectError(p, body));
    }
    UpkeepKeeps(Handled(ended, p, action, body, now), true, now, txns);
  }

  lemma HandleKeeps(s: State, p: nat, action: nat, txn: nat, body: seq<Byte>, now: nat, txns: (nat, nat))
    requires Inv(s) && p <= PROTOCOLS && now > 0
    ensures Inv(Handle(s, p, action, txn, body, now, txns).0)
  {
    var a, c := FindAnnounce(s.announces, txn), FindScrape(s.scrapes, txn);
    if p < PROTOCOLS && s.channels[p].connectingAt != 0 && txn == s.channels[p].connectTxn {
      OnConnectionResponseKeeps(s, p, Reply(txn), action, body, now, txns);
    } else if a.Some? {
      AnswerAnnounceKeeps(s, a.value, AnnounceAnswer(p, action, body));
    } else if c.Some? {
      AnswerScrapeKeeps(s, c.value, ScrapeReply(action, body));
    }
  }

  // ----- runs

  datatype Input =
    | AnnounceIn(reqTxns: (nat, nat))
    | ScrapeIn(reqTxn: nat, hasCallback: bool)
    | UpkeepIn
    | DnsIn(p: nat, result: Option<nat>)
    | DatagramIn(p: nat, action: nat, txn: nat, body: seq<Byte>)

  // One call, the time it is made, and the transaction IDs its connects draw.
  datatype Tick = Tick(input: Input, now: nat, txns: (nat, nat))

  // The clock reads seconds since 1970, never 0.
  predicate Possible(t: Tick) {
    t.now > 0 && (t.input.DnsIn? ==> t.input.p < PROTOCOLS) && (t.input.DatagramIn? ==> t.input.p <= PROTOCOLS)
  }

  function Step(s: State, t: Tick): (r: State)
    requires Wf(s) && Possible(t)
    ensures Wf(r)
  {
    match t.input
    case AnnounceIn(reqTxns) => DoAnnounce(s, reqTxns, t.now, t.txns)
    case ScrapeIn(reqTxn, hasCallback) => DoScrape(s, reqTxn, hasCallback, t.now, t.txns)
    case UpkeepIn => Upkeep(s, true, t.now, t.txns)
    case DnsIn(p, result) => DnsDone(s, p, result)
    case DatagramIn(p, action, txn, body) => Handle(s, p, action, txn, body, t.now, t.txns).0
  }

  // The state after the first k ticks of a run.
  function AfterFirst(ticks: seq<Tick>, k: nat): (r: State)
    requires k <= |ticks| && forall t :: t in ticks ==> Possible(t)
    ensures Wf(r)
  {
    if k == 0 then START else Step(AfterFirst(ticks, k - 1), ticks[k - 1])
  }

  function After(ticks: seq<Tick>): (r: State)
    requires forall t :: t in ticks ==> Possible(t)
    ensures Wf(r)
  {
    AfterFirst(ticks, |ticks|)
  }

  lemma StepKeeps(s: State, t: Tick)
    requires Inv(s) && Possible(t)
    ensures Inv(Step(s, t))
  {
    match t.input
    case AnnounceIn(reqTxns) =>
      QueueAnnouncesKeeps(s, reqTxns, t.now);
      UpkeepKeeps(QueueAnnounces(s, reqTxns, t.now), false, t.now, t.txns);
    case ScrapeIn(reqTxn, hasCallback) =>
      QueueScrapeKeeps(s, reqTxn, hasCallback, t.now);
      UpkeepKeeps(QueueScrape(s, reqTxn, hasCallback, t.now), false, t.now, t.txns);
    case UpkeepIn =>
      UpkeepKeeps(s, true, t.now, t.txns);
    case DnsIn(p, result) =>
      DnsDoneKeeps(s, p, result);
    case DatagramIn(p, action, txn, body) =>
      HandleKeeps(s, p, action, txn, body, t.now, t.txns);
  }

  lemma DnsDoneKeeps(s: State, p: nat, result: Option<nat>)
    requires Inv(s) && p < PROTOCOLS
    ensures Inv(DnsDone(s, p, result))
  {
    var t := DnsDone(s, p, result);
    forall q | 0 <= q < PROTOCOLS
      ensures ChannelAgrees(t.log, t.channels[q], q)
    {
      assert ChannelAgrees(s.log, s.channels[q], q);
    }
    SilentKeeps(s, t);
  }

  lemma StartInv()
    ensures Inv(START)
  {
    forall d: nat
      ensures Accounted(START, d)
    {
    }
  }

  lemma {:induction false} FirstTicksKeepInv(ticks: seq<Tick>, k: nat)
    requires k <= |ticks| && forall t :: t in ticks ==> Possible(t)
    ensures Inv(AfterFirst(ticks, k))
  {
    if k == 0 {
      StartInv();
    } else {
      FirstTicksKeepInv(ticks, k - 1);
      StepKeeps(AfterFirst(ticks, k - 1), ticks[k - 1]);
    }
  }

  // Main result: the invariant holds after every run.
  lemma RunsKeepInv(ticks: seq<Tick>)
    requires forall t :: t in ticks ==> Possible(t)
    ensures Inv(After(ticks))
  {
    FirstTicksKeepInv(ticks, |ticks|);
  }
}
