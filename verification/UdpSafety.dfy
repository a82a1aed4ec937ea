// What every run of a UDP tracker keeps: connection-ID safety, connect
// discipline, conservation of requests, and one verdict per announce
// (BEP 15 and libtransmission/announcer-udp.cc).
module UdpSafety {
  import opened Options
  import opened Verdict
  import opened UdpWire
  import opened UdpMachine

  // ----- reading a log

  // The address last found for a protocol, unless a new lookup has begun.
  function LastAddr(log: seq<Event>, p: nat): Option<nat> {
    if log == [] then None
    else
      var e := log[|log| - 1];
      if e.Resolved? && e.p == p then e.found else LastAddr(log[..|log| - 1], p)
  }

  // The connection ID last received on a protocol, and when.
  function LastId(log: seq<Event>, p: nat): Option<(nat, nat)> {
    if log == [] then None
    else
      var e := log[|log| - 1];
      if e.ConnIdReceived? && e.p == p then Some((e.id, e.at)) else LastId(log[..|log| - 1], p)
  }

  // The transaction ID and time of the connect that is under way.
  function Outstanding(log: seq<Event>, p: nat): Option<(nat, nat)> {
    if log == [] then None
    else
      var e := log[|log| - 1];
      if e.ConnectSent? && e.p == p then Some((e.txn, e.at))
      else if e.ConnectEnded? && e.p == p then None
      else Outstanding(log[..|log| - 1], p)
  }

  predicate Sends(e: Event, rid: nat) {
    (e.AnnounceSent? || e.ScrapeSent?) && e.rid == rid
  }

  predicate Settles(e: Event, rid: nat) {
    (e.AnnounceAnswered? || e.ScrapeAnswered? || e.ScrapeDropped?) && e.rid == rid
  }

  function SentCount(log: seq<Event>, rid: nat): nat {
    if log == [] then 0
    else SentCount(log[..|log| - 1], rid) + if Sends(log[|log| - 1], rid) then 1 else 0
  }

  function SettledCount(log: seq<Event>, rid: nat): nat {
    if log == [] then 0
    else SettledCount(log[..|log| - 1], rid) + if Settles(log[|log| - 1], rid) then 1 else 0
  }

  function AnswersOf(log: seq<Event>, d: nat): seq<Answer> {
    if log == [] then []
    else
      var e, rest := log[|log| - 1], AnswersOf(log[..|log| - 1], d);
      if e.AnnounceAnswered? && e.data == d then rest + [e.answer] else rest
  }

  function CallsOf(log: seq<Event>, d: nat): seq<Response> {
    if log == [] then []
    else
      var e, rest := log[|log| - 1], CallsOf(log[..|log| - 1], d);
      if e.Called? && e.data == d then rest + [e.response] else rest
  }

  // ----- safety of one event, given what went before

  predicate HasValidId(before: seq<Event>, p: nat, now: nat) {
    var last := LastId(before, p);
    last.Some? && last.value.0 != 0 && now < last.value.1 + CONNECTION_TTL
  }

  // A datagram carries the latest connection ID its protocol received, less
  // than 45 seconds old, and goes to the latest address its protocol resolved.
  predicate SafeDatagram(before: seq<Event>, rid: nat, p: nat, addr: nat, id: nat, at: nat) {
    && p < PROTOCOLS && LastAddr(before, p) == Some(addr)
    && HasValidId(before, p, at) && LastId(before, p).value.0 == id
    && SentCount(before, rid) == 0 && SettledCount(before, rid) == 0
  }

  predicate SafeEvent(before: seq<Event>, e: Event) {
    match e
    case Resolved(p, _) => p < PROTOCOLS
    case ConnectSent(p, addr, _, at) =>
      p < PROTOCOLS && Outstanding(before, p) == None && LastAddr(before, p) == Some(addr) && !HasValidId(before, p, at)
    case ConnectEnded(p, txn, cause) =>
      && p < PROTOCOLS && Outstanding(before, p).Some? && Outstanding(before, p).value.0 == txn
      && (match cause
          case Reply(replyTxn) => replyTxn == txn
          case Overdue(now) => Outstanding(before, p).value.1 + CONNECT_TTL < now)
    case ConnIdReceived(p, _, _) =>
      && before != []
      && var last := before[|before| - 1];
         last.ConnectEnded? && last.p == p && last.cause.Reply?
    case AnnounceSent(rid, _, own, p, addr, id, at) => own == p && SafeDatagram(before, rid, p, addr, id, at)
    case ScrapeSent(rid, _, p, addr, id, at) => SafeDatagram(before, rid, p, addr, id, at)
    case ScrapeDropped(rid) => SentCount(before, rid) == 1 && SettledCount(before, rid) == 0
    case AnnounceAnswered(rid, _, _) => SettledCount(before, rid) == 0
    case ScrapeAnswered(rid, _, _) => SettledCount(before, rid) == 0
    case Called(_, _) => true
  }

  predicate SafeAt(log: seq<Event>, i: nat)
    requires i < |log|
  {
    SafeEvent(log[..i], log[i])
  }

  ghost predicate SafeLog(log: seq<Event>) {
    forall i :: 0 <= i < |log| ==> SafeAt(log, i)
  }

  lemma SafeSnoc(log: seq<Event>, e: Event)
    requires SafeLog(log) && SafeEvent(log, e)
    ensures SafeLog(log + [e])
  {
    var all := log + [e];
    forall i | 0 <= i < |all|
      ensures SafeAt(all, i)
    {
      if i < |log| {
        assert SafeAt(log, i);
        assert all[..i] == log[..i];
      } else {
        assert all[..i] == log;
      }
    }
  }

  // ----- the invariant

  // What the tracker remembers of a protocol is what the log says.
  predicate ChannelAgrees(log: seq<Event>, c: Channel, p: nat) {
    && c.addr == LastAddr(log, p)
    && Outstanding(log, p) == (if c.connectingAt == 0 then None else Some((c.connectTxn, c.connectingAt)))
    && (match LastId(log, p)
        case None => c.connId == 0
        case Some(last) => c.connId == last.0 && c.expires == last.1 + CONNECTION_TTL)
  }

  function ARids(list: seq<Announce>): seq<nat> {
    seq(|list|, i requires 0 <= i < |list| => list[i].rid)
  }

  function SRids(list: seq<Scrape>): seq<nat> {
    seq(|list|, i requires 0 <= i < |list| => list[i].rid)
  }

  function Datas(list: seq<Announce>): seq<nat> {
    seq(|list|, i requires 0 <= i < |list| => list[i].data)
  }

  ghost function Pending(s: State, rid: nat): nat {
    multiset(ARids(s.announces))[rid] + multiset(SRids(s.scrapes))[rid]
  }

  ghost function PendingOf(s: State, d: nat): nat {
    multiset(Datas(s.announces))[d]
  }

  // Every request ever queued is pending or settled, once.
  ghost predicate Conserved(s: State, rid: nat) {
    && Pending(s, rid) + SettledCount(s.log, rid) == (if rid < s.nextRid then 1 else 0)
    && SentCount(s.log, rid) <= (if rid < s.nextRid then 1 else 0)
  }

  predicate UnsentAnnounce(s: State, i: nat)
    requires i < |s.announces|
  {
    s.announces[i].proto < PROTOCOLS && (s.announces[i].sentAt == 0 ==> SentCount(s.log, s.announces[i].rid) == 0)
  }

  predicate UnsentScrape(s: State, i: nat)
    requires i < |s.scrapes|
  {
    s.scrapes[i].sentAt == 0 ==> SentCount(s.log, s.scrapes[i].rid) == 0
  }

  // The aggregator of an announce has seen its answers, and the callbacks made
  // are those it asked for; the answers still to come are pending.
  ghost predicate Accounted(s: State, d: nat) {
    var answers := AnswersOf(s.log, d);
    if d < s.nextData then
      && d in s.aggs && (s.aggs[d], CallsOf(s.log, d)) == Run(PROTOCOLS, answers)
      && |answers| + PendingOf(s, d) == PROTOCOLS
    else
      answers == [] && CallsOf(s.log, d) == [] && PendingOf(s, d) == 0
  }

  ghost predicate Channels(s: State) {
    Wf(s) && forall p :: 0 <= p < PROTOCOLS ==> ChannelAgrees(s.log, s.channels[p], p)
  }

  ghost predicate Unsent(s: State) {
    && (forall i :: 0 <= i < |s.announces| ==> UnsentAnnounce(s, i))
    && (forall i :: 0 <= i < |s.scrapes| ==> UnsentScrape(s, i))
  }

  ghost predicate Inv(s: State) {
    && Channels(s) && SafeLog(s.log) && Unsent(s)
    && (forall rid: nat :: Conserved(s, rid))
    && (forall d: nat :: Accounted(s, d))
  }

  // ----- steps that only touch a channel

  predicate IsChannelEvent(e: Event) {
    e.Resolved? || e.ConnectSent? || e.ConnectEnded? || e.ConnIdReceived?
  }

  lemma ChannelEventKeeps(s: State, t: State, e: Event)
    requires Inv(s) && SameQueues(s, t) && IsChannelEvent(e)
    requires t.log == s.log + [e] && SafeEvent(s.log, e) && Channels(t)
    ensures Inv(t)
  {
    SafeSnoc(s.log, e);
    assert t.log[..|t.log| - 1] == s.log;
    forall i | 0 <= i < |t.announces|
      ensures UnsentAnnounce(t, i)
    {
      assert UnsentAnnounce(s, i);
    }
    forall i | 0 <= i < |t.scrapes|
      ensures UnsentScrape(t, i)
    {
      assert UnsentScrape(s, i);
    }
    forall rid: nat
      ensures Conserved(t, rid)
    {
      assert Conserved(s, rid);
    }
    forall d: nat
      ensures Accounted(t, d)
    {
      assert Accounted(s, d);
    }
  }

  // A change the log does not speak of.
  lemma SilentKeeps(s: State, t: State)
    requires Inv(s) && SameQueues(s, t) && t.log == s.log && Channels(t)
    ensures Inv(t)
  {
    forall i | 0 <= i < |t.announces|
      ensures UnsentAnnounce(t, i)
    {
      assert UnsentAnnounce(s, i);
    }
    forall i | 0 <= i < |t.scrapes|
      ensures UnsentScrape(t, i)
    {
      assert UnsentScrape(s, i);
    }
    forall rid: nat
      ensures Conserved(t, rid)
    {
      assert Conserved(s, rid);
    }
    forall d: nat
      ensures Accounted(t, d)
    {
      assert Accounted(s, d);
    }
  }

  // One channel and one event of its own: the other channel is not concerned.
  lemma ChannelsKeep(s: State, t: State, p: nat, e: Event)
    requires Channels(s) && Wf(t) && p < PROTOCOLS && IsChannelEvent(e) && e.p == p
    requires t.log == s.log + [e] && t.channels == s.channels[p := t.channels[p]]
    requires ChannelAgrees(t.log, t.channels[p], p)
    ensures Channels(t)
  {
    assert t.log[..|t.log| - 1] == s.log;
    forall q | 0 <= q < PROTOCOLS
      ensures ChannelAgrees(t.log, t.channels[q], q)
    {
      assert ChannelAgrees(s.log, s.channels[q], q);
    }
  }

  lemma ResolveKeeps(s: State, p: nat, now: nat)
    requires Inv(s) && p < PROTOCOLS
    ensures Inv(Resolve(s, p, now))
  {
    var t := Resolve(s, p, now);
    assert ChannelAgrees(s.log, s.channels[p], p);
    if s.channels[p].lookup.Ready? {
      if s.channels[p].lookup.result == None {
        forall q | 0 <= q < PROTOCOLS
          ensures ChannelAgrees(t.log, t.channels[q], q)
        {
          assert ChannelAgrees(s.log, s.channels[q], q);
        }
        SilentKeeps(s, t);
      } else {
        var e := Resolved(p, s.channels[p].lookup.result);
        assert t.log[..|t.log| - 1] == s.log;
        ChannelsKeep(s, t, p, e);
        ChannelEventKeeps(s, t, e);
      }
    }
  }

  lemma StartLookupKeeps(s: State, p: nat)
    requires Inv(s) && p < PROTOCOLS
    ensures Inv(StartLookup(s, p))
  {
    var t, e := StartLookup(s, p), Resolved(p, None);
    assert ChannelAgrees(s.log, s.channels[p], p);
    assert t.log[..|t.log| - 1] == s.log;
    ChannelsKeep(s, t, p, e);
    ChannelEventKeeps(s, t, e);
  }

  lemma SendConnectKeeps(s: State, p: nat, now: nat, txn: nat)
    requires Inv(s) && p < PROTOCOLS && now > 0
    requires s.channels[p].addr.Some? && !IsConnected(s.channels[p], now) && s.channels[p].connectingAt == 0
    ensures Inv(SendConnect(s, p, now, txn))
  {
    var t, e := SendConnect(s, p, now, txn), ConnectSent(p, s.channels[p].addr.value, txn, now);
    assert ChannelAgrees(s.log, s.channels[p], p);
    assert t.log[..|t.log| - 1] == s.log;
    ChannelsKeep(s, t, p, e);
    ChannelEventKeeps(s, t, e);
  }

  predicate EndsConnect(c: Channel, cause: Cause) {
    c.connectingAt != 0
    && match cause
       case Reply(txn) => txn == c.connectTxn
       case Overdue(now) => c.connectingAt + CONNECT_TTL < now
  }

  lemma EndConnectKeeps(s: State, p: nat, cause: Cause)
    requires Inv(s) && p < PROTOCOLS && EndsConnect(s.channels[p], cause)
    ensures Inv(EndConnect(s, p, cause))
  {
    var t, e := EndConnect(s, p, cause), ConnectEnded(p, s.channels[p].connectTxn, cause);
    assert ChannelAgrees(s.log, s.channels[p], p);
    assert t.log[..|t.log| - 1] == s.log;
    ChannelsKeep(s, t, p, e);
    ChannelEventKeeps(s, t, e);
  }

  lemma ReceiveConnIdKeeps(s: State, p: nat, id: nat, now: nat)
    requires Inv(s) && p < PROTOCOLS && SafeEvent(s.log, ConnIdReceived(p, id, now))
    ensures Inv(ReceiveConnId(s, p, id, now))
  {
    var t, e := ReceiveConnId(s, p, id, now), ConnIdReceived(p, id, now);
    assert ChannelAgrees(s.log, s.channels[p], p);
    assert t.log[..|t.log| - 1] == s.log;
    ChannelsKeep(s, t, p, e);
    ChannelEventKeeps(s, t, e);
  }

  // ----- steps that touch the queues

  lemma WithoutMultiset<T>(list: seq<T>, i: nat)
    requires i < |list|
    ensures multiset(Without(list, i)) == multiset(list) - multiset{list[i]}
  {
    assert list == list[..i] + [list[i]] + list[i + 1..];
  }

  lemma RidsWithout(s: State, i: nat)
    requires i < |s.announces|
    ensures multiset(ARids(Without(s.announces, i))) == multiset(ARids(s.announces)) - multiset{s.announces[i].rid}
    ensures multiset(Datas(Without(s.announces, i))) == multiset(Datas(s.announces)) - multiset{s.announces[i].data}
    ensures s.announces[i].rid in ARids(s.announces) && s.announces[i].data in Datas(s.announces)
  {
    var left := Without(s.announces, i);
    assert ARids(left) == Without(ARids(s.announces), i);
    assert Datas(left) == Without(Datas(s.announces), i);
    WithoutMultiset(ARids(s.announces), i);
    WithoutMultiset(Datas(s.announces), i);
    assert ARids(s.announces)[i] == s.announces[i].rid && Datas(s.announces)[i] == s.announces[i].data;
  }

  lemma SRidsWithout(s: State, i: nat)
    requires i < |s.scrapes|
    ensures multiset(SRids(Without(s.scrapes, i))) == multiset(SRids(s.scrapes)) - multiset{s.scrapes[i].rid}
    ensures s.scrapes[i].rid in SRids(s.scrapes)
  {
    assert SRids(Without(s.scrapes, i)) == Without(SRids(s.scrapes), i);
    WithoutMultiset(SRids(s.scrapes), i);
    assert SRids(s.scrapes)[i] == s.scrapes[i].rid;
  }

  lemma ChannelsStay(s: State, t: State, e: Event)
    requires Channels(s) && t.channels == s.channels && t.log == s.log + [e] && !IsChannelEvent(e)
    ensures Channels(t)
  {
    assert t.log[..|t.log| - 1] == s.log;
    forall p | 0 <= p < PROTOCOLS
      ensures ChannelAgrees(t.log, t.channels[p], p)
    {
      assert ChannelAgrees(s.log, s.channels[p], p);
    }
  }

  // A pending request has not been settled.
  lemma PendingUnsettled(s: State, rid: nat)
    requires Conserved(s, rid) && (rid in ARids(s.announces) || rid in SRids(s.scrapes))
    ensures Pending(s, rid) == 1 && SettledCount(s.log, rid) == 0 && rid < s.nextRid
  {
    assert multiset(ARids(s.announces))[rid] > 0 || multiset(SRids(s.scrapes))[rid] > 0;
  }

  // What stays unsent when requests leave the queues and nothing is sent.
  lemma UnsentLeaves(s: State, t: State)
    requires Unsent(s)
    requires forall rid: nat :: SentCount(t.log, rid) == SentCount(s.log, rid)
    requires forall a :: a in t.announces ==> a in s.announces
    requires forall c :: c in t.scrapes ==> c in s.scrapes
    ensures Unsent(t)
  {
    forall i | 0 <= i < |t.announces|
      ensures UnsentAnnounce(t, i)
    {
      assert t.announces[i] in s.announces;
      var j :| 0 <= j < |s.announces| && s.announces[j] == t.announces[i];
      assert UnsentAnnounce(s, j);
    }
    forall i | 0 <= i < |t.scrapes|
      ensures UnsentScrape(t, i)
    {
      assert t.scrapes[i] in s.scrapes;
      var j :| 0 <= j < |s.scrapes| && s.scrapes[j] == t.scrapes[i];
      assert UnsentScrape(s, j);
    }
  }

  // Scrape i leaves the queue, and the log says how.
  function ScrapeGone(s: State, i: nat, e: Event): State
    requires i < |s.scrapes|
  {
    Log(s.(scrapes := Without(s.scrapes, i)), e)
  }

  predicate EndsScrape(e: Event, rid: nat) {
    (e.ScrapeAnswered? || e.ScrapeDropped?) && e.rid == rid
  }

  lemma ScrapeGoneConserves(s: State, i: nat, e: Event, rid: nat)
    requires i < |s.scrapes| && EndsScrape(e, s.scrapes[i].rid) && Conserved(s, rid)
    ensures Conserved(ScrapeGone(s, i, e), rid)
  {
    assert (s.log + [e])[..|s.log|] == s.log;
    SRidsWithout(s, i);
  }

  lemma ScrapeGoneAccounts(s: State, i: nat, e: Event, d: nat)
    requires i < |s.scrapes| && EndsScrape(e, s.scrapes[i].rid) && Accounted(s, d)
    ensures Accounted(ScrapeGone(s, i, e), d)
  {
    assert (s.log + [e])[..|s.log|] == s.log;
  }

  lemma ScrapeGoneUnsent(s: State, i: nat, e: Event)
    requires Unsent(s) && i < |s.scrapes| && EndsScrape(e, s.scrapes[i].rid)
    ensures Unsent(ScrapeGone(s, i, e))
  {
    assert (s.log + [e])[..|s.log|] == s.log;
    UnsentLeaves(s, ScrapeGone(s, i, e));
  }

  lemma ScrapeGoneKeeps(s: State, i: nat, e: Event)
    requires Inv(s) && i < |s.scrapes| && EndsScrape(e, s.scrapes[i].rid) && SafeEvent(s.log, e)
    ensures Inv(ScrapeGone(s, i, e))
  {
    var t := ScrapeGone(s, i, e);
    SafeSnoc(s.log, e);
    ChannelsStay(s, t, e);
    ScrapeGoneUnsent(s, i, e);
    forall r: nat
      ensures Conserved(t, r)
    {
      ScrapeGoneConserves(s, i, e, r);
    }
    forall d: nat
      ensures Accounted(t, d)
    {
      ScrapeGoneAccounts(s, i, e, d);
    }
  }

  lemma AnswerScrapeKeeps(s: State, i: nat, result: ScrapeResult)
    requires Inv(s) && i < |s.scrapes|
    ensures Inv(AnswerScrape(s, i, result))
  {
    var rid := s.scrapes[i].rid;
    assert SRids(s.scrapes)[i] == rid && Conserved(s, rid);
    PendingUnsettled(s, rid);
    ScrapeGoneKeeps(s, i, ScrapeAnswered(rid, s.scrapes[i].hasCallback, result));
  }

  // The log of an answered announce: the answer, then a callback or none.
  lemma AnswerLog(s: State, i: nat, a: Answer)
    returns (answered: seq<Event>, made: seq<Response>)
    requires i < |s.announces|
    ensures var t, req := AnswerAnnounce(s, i, a), s.announces[i];
            && made == Take(if req.data in s.aggs then s.aggs[req.data] else NewAgg(PROTOCOLS), a).1
            && answered == s.log + [AnnounceAnswered(req.rid, req.data, a)]
            && answered[..|answered| - 1] == s.log
            && (made == [] ==> t.log == answered)
            && (made != [] ==> made == [made[0]] && t.log == answered + [Called(req.data, made[0])]
                               && t.log[..|t.log| - 1] == answered)
  {
    var req := s.announces[i];
    made := Take(if req.data in s.aggs then s.aggs[req.data] else NewAgg(PROTOCOLS), a).1;
    answered := s.log + [AnnounceAnswered(req.rid, req.data, a)];
  }

  lemma AnswerCounts(s: State, i: nat, a: Answer, rid: nat)
    requires i < |s.announces|
    ensures var t, req := AnswerAnnounce(s, i, a), s.announces[i];
            && SentCount(t.log, rid) == SentCount(s.log, rid)
            && SettledCount(t.log, rid) == SettledCount(s.log, rid) + (if rid == req.rid then 1 else 0)
  {
    var answered, made := AnswerLog(s, i, a);
  }

  lemma AnswerTold(s: State, i: nat, a: Answer, d: nat)
    requires i < |s.announces|
    ensures var t, req := AnswerAnnounce(s, i, a), s.announces[i];
            var made := Take(if req.data in s.aggs then s.aggs[req.data] else NewAgg(PROTOCOLS), a).1;
            && AnswersOf(t.log, d) == (if d == req.data then AnswersOf(s.log, d) + [a] else AnswersOf(s.log, d))
            && CallsOf(t.log, d) == (if d == req.data then CallsOf(s.log, d) + made else CallsOf(s.log, d))
  {
    var answered, made := AnswerLog(s, i, a);
  }

  lemma AnswerAnnounceKeeps(s: State, i: nat, a: Answer)
    requires Inv(s) && i < |s.announces|
    ensures Inv(AnswerAnnounce(s, i, a))
  {
    var t, req := AnswerAnnounce(s, i, a), s.announces[i];
    assert Conserved(s, req.rid);
    assert ARids(s.announces)[i] == req.rid;
    PendingUnsettled(s, req.rid);
    AnswerIsSafe(s, i, a);
    forall r: nat
      ensures Conserved(t, r) && SentCount(t.log, r) == SentCount(s.log, r)
    {
      AnswerConserves(s, i, a, r);
    }
    UnsentLeaves(s, t);
    forall d: nat
      ensures Accounted(t, d)
    {
      AnswerAccounted(s, i, a, d);
    }
  }

  lemma AnswerConserves(s: State, i: nat, a: Answer, rid: nat)
    requires i < |s.announces| && Conserved(s, rid)
    ensures var t := AnswerAnnounce(s, i, a);
            Conserved(t, rid) && SentCount(t.log, rid) == SentCount(s.log, rid)
  {
    AnswerCounts(s, i, a, rid);
    RidsWithout(s, i);
    assert multiset(ARids(s.announces))[s.announces[i].rid] > 0;
  }

  lemma AnswerIsSafe(s: State, i: nat, a: Answer)
    requires Channels(s) && SafeLog(s.log) && i < |s.announces| && SettledCount(s.log, s.announces[i].rid) == 0
    ensures var t := AnswerAnnounce(s, i, a); Channels(t) && SafeLog(t.log)
  {
    var t, req := AnswerAnnounce(s, i, a), s.announces[i];
    var (g, made) := Take(if req.data in s.aggs then s.aggs[req.data] else NewAgg(PROTOCOLS), a);
    var e := AnnounceAnswered(req.rid, req.data, a);
    var t1 := Log(s.(announces := Without(s.announces, i), aggs := s.aggs[req.data := g]), e);
    SafeSnoc(s.log, e);
    ChannelsStay(s, t1, e);
    if made != [] {
      SafeSnoc(t1.log, Called(req.data, made[0]));
      ChannelsStay(t1, t, Called(req.data, made[0]));
    }
  }

  lemma AnswerPending(s: State, i: nat, a: Answer, d: nat)
    requires i < |s.announces|
    ensures PendingOf(s, d) == PendingOf(AnswerAnnounce(s, i, a), d) + if d == s.announces[i].data then 1 else 0
  {
    RidsWithout(s, i);
    var datas := multiset(Datas(s.announces));
    assert s.announces[i].data in datas;
  }

  lemma AnswerAccounted(s: State, i: nat, a: Answer, d: nat)
    requires i < |s.announces| && Accounted(s, d) && Accounted(s, s.announces[i].data)
    ensures Accounted(AnswerAnnounce(s, i, a), d)
  {
    AnswerTold(s, i, a, d);
    AnswerPending(s, i, a, d);
    RunSnoc(PROTOCOLS, AnswersOf(s.log, d), a);
  }

  // ----- sending

  lemma AnnounceSendKeeps(s: State, i: nat, now: nat)
    requires Inv(s) && i < |s.announces| && s.announces[i].sentAt == 0 && now > 0
    requires s.announces[i].proto < PROTOCOLS && Usable(s, s.announces[i].proto, now)
    ensures Inv(SendAnnounce(s, i, s.announces[i].proto, now))
  {
    var req := s.announces[i];
    var t, c := SendAnnounce(s, i, req.proto, now), s.channels[req.proto];
    var e := AnnounceSent(req.rid, req.txn, req.proto, req.proto, c.addr.value, c.connId, now);
    assert t.log[..|t.log| - 1] == s.log;
    assert UnsentAnnounce(s, i);
    assert ChannelAgrees(s.log, c, req.proto);
    assert Conserved(s, req.rid);
    assert ARids(s.announces)[i] == req.rid;
    PendingUnsettled(s, req.rid);
    SafeSnoc(s.log, e);
    ChannelsStay(s, t, e);
    assert ARids(t.announces) == ARids(s.announces) && Datas(t.announces) == Datas(s.announces);
    AnnounceSentUnsent(s, i, req.proto, now);
    forall r: nat
      ensures Conserved(t, r)
    {
      assert Conserved(s, r);
    }
    forall d: nat
      ensures Accounted(t, d)
    {
      assert Accounted(s, d);
    }
  }

  lemma TwicePresent<T>(list: seq<T>, i: nat, j: nat)
    requires i < |list| && j < |list| && i != j && list[i] == list[j]
    ensures multiset(list)[list[i]] >= 2
  {
    var rest := Without(list, i);
    WithoutMultiset(list, i);
    assert rest[if j < i then j else j - 1] == list[j];
    assert multiset(rest)[list[j]] > 0;
  }

  // No other pending request has the rid of announce i, or of scrape i.
  lemma AnnounceAlone(s: State, i: nat)
    requires i < |s.announces| && Pending(s, s.announces[i].rid) == 1
    ensures forall j :: 0 <= j < |s.announces| && j != i ==> s.announces[j].rid != s.announces[i].rid
    ensures forall k :: 0 <= k < |s.scrapes| ==> s.scrapes[k].rid != s.announces[i].rid
  {
    var rid := s.announces[i].rid;
    assert ARids(s.announces)[i] == rid;
    assert multiset(ARids(s.announces))[rid] > 0;
    forall j | 0 <= j < |s.announces| && j != i
      ensures s.announces[j].rid != rid
    {
      if s.announces[j].rid == rid {
        TwicePresent(ARids(s.announces), i, j);
      }
    }
    forall k | 0 <= k < |s.scrapes|
      ensures s.scrapes[k].rid != rid
    {
      assert SRids(s.scrapes)[k] == s.scrapes[k].rid;
      assert multiset(SRids(s.scrapes))[s.scrapes[k].rid] > 0;
    }
  }

  lemma ScrapeAlone(s: State, i: nat)
    requires i < |s.scrapes| && Pending(s, s.scrapes[i].rid) == 1
    ensures forall j :: 0 <= j < |s.scrapes| && j != i ==> s.scrapes[j].rid != s.scrapes[i].rid
    ensures forall k :: 0 <= k < |s.announces| ==> s.announces[k].rid != s.scrapes[i].rid
  {
    var rid := s.scrapes[i].rid;
    assert SRids(s.scrapes)[i] == rid;
    assert multiset(SRids(s.scrapes))[rid] > 0;
    forall j | 0 <= j < |s.scrapes| && j != i
      ensures s.scrapes[j].rid != rid
    {
      if s.scrapes[j].rid == rid {
        TwicePresent(SRids(s.scrapes), i, j);
      }
    }
    forall k | 0 <= k < |s.announces|
      ensures s.announces[k].rid != rid
    {
      assert ARids(s.announces)[k] == s.announces[k].rid;
      assert multiset(ARids(s.announces))[s.announces[k].rid] > 0;
    }
  }

  lemma AnnounceSentUnsent(s: State, i: nat, p: nat, now: nat)
    requires Unsent(s) && Wf(s) && i < |s.announces| && Pending(s, s.announces[i].rid) == 1
    requires p < PROTOCOLS && s.channels[p].addr.Some? && now > 0
    ensures Unsent(SendAnnounce(s, i, p, now))
  {
    var t := SendAnnounce(s, i, p, now);
    AnnounceAlone(s, i);
    assert t.log[..|t.log| - 1] == s.log;
    forall j | 0 <= j < |t.announces|
      ensures UnsentAnnounce(t, j)
    {
      assert UnsentAnnounce(s, j);
    }
    forall j | 0 <= j < |t.scrapes|
      ensures UnsentScrape(t, j)
    {
      assert UnsentScrape(s, j);
    }
  }

  lemma ScrapeSendKeeps(s: State, i: nat, p: nat, now: nat)
    requires Inv(s) && i < |s.scrapes| && s.scrapes[i].sentAt == 0 && now > 0
    requires p < PROTOCOLS && Usable(s, p, now)
    ensures Inv(SendScrape(s, i, p, now))
  {
    var req, c := s.scrapes[i], s.channels[p];
    var e := ScrapeSent(req.rid, req.txn, p, c.addr.value, c.connId, now);
    var u := Log(s.(scrapes := s.scrapes[i := req.(sentAt := now)]), e);
    assert u.log[..|u.log| - 1] == s.log;
    assert UnsentScrape(s, i);
    assert ChannelAgrees(s.log, c, p);
    assert Conserved(s, req.rid);
    assert SRids(s.scrapes)[i] == req.rid;
    PendingUnsettled(s, req.rid);
    SafeSnoc(s.log, e);
    ChannelsStay(s, u, e);
    assert SRids(u.scrapes) == SRids(s.scrapes);
    ScrapeSentUnsent(s, i, now, e);
    forall r: nat
      ensures Conserved(u, r)
    {
      assert Conserved(s, r);
    }
    forall d: nat
      ensures Accounted(u, d)
    {
      assert Accounted(s, d);
    }
    if !req.hasCallback {
      var t := SendScrape(s, i, p, now);
      assert Without(u.scrapes, i) == Without(s.scrapes, i);
      DropKeeps(u, i);
    }
  }

  lemma ScrapeSentUnsent(s: State, i: nat, now: nat, e: Event)
    requires Unsent(s) && Wf(s) && i < |s.scrapes| && Pending(s, s.scrapes[i].rid) == 1 && now > 0
    requires e.ScrapeSent? && e.rid == s.scrapes[i].rid
    ensures Unsent(Log(s.(scrapes := s.scrapes[i := s.scrapes[i].(sentAt := now)]), e))
  {
    var t := Log(s.(scrapes := s.scrapes[i := s.scrapes[i].(sentAt := now)]), e);
    ScrapeAlone(s, i);
    assert t.log[..|t.log| - 1] == s.log;
    forall j | 0 <= j < |t.announces|
      ensures UnsentAnnounce(t, j)
    {
      assert UnsentAnnounce(s, j);
    }
    forall j | 0 <= j < |t.scrapes|
      ensures UnsentScrape(t, j)
    {
      assert UnsentScrape(s, j);
    }
  }

  // A scrape that was just sent and that nobody waits for leaves the queue.
  lemma DropKeeps(s: State, i: nat)
    requires Inv(s) && i < |s.scrapes| && SentCount(s.log, s.scrapes[i].rid) == 1
    ensures Inv(Log(s.(scrapes := Without(s.scrapes, i)), ScrapeDropped(s.scrapes[i].rid)))
  {
    var rid := s.scrapes[i].rid;
    assert SRids(s.scrapes)[i] == rid && Conserved(s, rid);
    PendingUnsettled(s, rid);
    ScrapeGoneKeeps(s, i, ScrapeDropped(rid));
  }

  // ----- queueing

  lemma TwoMore(list: seq<nat>, a: nat, b: nat, x: nat)
    ensures multiset(list + [a] + [b])[x] == multiset(list)[x] + (if x == a then 1 else 0) + (if x == b then 1 else 0)
  {
  }

  lemma QueueConserves(s: State, reqTxns: (nat, nat), now: nat, rid: nat)
    requires Conserved(s, rid)
    ensures Conserved(QueueAnnounces(s, reqTxns, now), rid)
  {
    assert ARids(QueueAnnounces(s, reqTxns, now).announces) == ARids(s.announces) + [s.nextRid] + [s.nextRid + 1];
    TwoMore(ARids(s.announces), s.nextRid, s.nextRid + 1, rid);
  }

  lemma QueueAccounts(s: State, reqTxns: (nat, nat), now: nat, d: nat)
    requires Accounted(s, d)
    ensures Accounted(QueueAnnounces(s, reqTxns, now), d)
  {
    assert Datas(QueueAnnounces(s, reqTxns, now).announces) == Datas(s.announces) + [s.nextData] + [s.nextData];
    TwoMore(Datas(s.announces), s.nextData, s.nextData, d);
  }

  lemma QueueAnnouncesKeeps(s: State, reqTxns: (nat, nat), now: nat)
    requires Inv(s)
    ensures Inv(QueueAnnounces(s, reqTxns, now))
  {
    var t := QueueAnnounces(s, reqTxns, now);
    assert Conserved(s, s.nextRid) && Conserved(s, s.nextRid + 1);
    assert Channels(t) by {
      assert forall p :: 0 <= p < PROTOCOLS ==> ChannelAgrees(s.log, s.channels[p], p);
    }
    forall i | 0 <= i < |t.announces|
      ensures UnsentAnnounce(t, i)
    {
      if i < |s.announces| {
        assert UnsentAnnounce(s, i);
      }
    }
    forall i | 0 <= i < |t.scrapes|
      ensures UnsentScrape(t, i)
    {
      assert UnsentScrape(s, i);
    }
    forall r: nat
      ensures Conserved(t, r)
    {
      QueueConserves(s, reqTxns, now, r);
    }
    forall d: nat
      ensures Accounted(t, d)
    {
      QueueAccounts(s, reqTxns, now, d);
    }
  }

  lemma QueueScrapeKeeps(s: State, txn: nat, hasCallback: bool, now: nat)
    requires Inv(s)
    ensures Inv(QueueScrape(s, txn, hasCallback, now))
  {
    var t := QueueScrape(s, txn, hasCallback, now);
    assert SRids(t.scrapes) == SRids(s.scrapes) + [s.nextRid];
    assert Conserved(s, s.nextRid);
    assert Channels(t) by {
      assert forall p :: 0 <= p < PROTOCOLS ==> ChannelAgrees(s.log, s.channels[p], p);
    }
    forall i | 0 <= i < |t.announces|
      ensures UnsentAnnounce(t, i)
    {
      assert UnsentAnnounce(s, i);
    }
    forall i | 0 <= i < |t.scrapes|
      ensures UnsentScrape(t, i)
    {
      if i < |s.scrapes| {
        assert UnsentScrape(s, i);
      }
    }
    forall r: nat
      ensures Conserved(t, r)
    {
      assert Conserved(s, r);
    }
    forall d: nat
      ensures Accounted(t, d)
    {
      assert Accounted(s, d);
    }
  }
}
