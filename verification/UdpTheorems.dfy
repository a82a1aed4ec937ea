// What the invariant means for a reader of the log.
module UdpTheorems {
  import opened Options
  import opened Verdict
  import opened UdpWire
  import opened UdpMachine
  import opened UdpSafety
  import opened UdpRuns

  // ----- positions in a log

  // Event j is the last connection ID received on p.
  predicate LastReceived(log: seq<Event>, j: nat, p: nat, id: nat, at: nat) {
    && j < |log| && log[j] == ConnIdReceived(p, id, at)
    && forall k :: j < k < |log| ==> !(log[k].ConnIdReceived? && log[k].p == p)
  }

  // Event j found the address p now has.
  predicate LastFound(log: seq<Event>, j: nat, p: nat, addr: nat) {
    && j < |log| && log[j] == Resolved(p, Some(addr))
    && forall k :: j < k < |log| ==> !(log[k].Resolved? && log[k].p == p)
  }

  predicate IsConnectEvent(e: Event, p: nat) {
    (e.ConnectSent? || e.ConnectEnded?) && e.p == p
  }

  // Event j is a connect on p that is still under way.
  predicate UnderWay(log: seq<Event>, j: nat, p: nat) {
    j < |log| && log[j].ConnectSent? && log[j].p == p && forall k :: j < k < |log| ==> !IsConnectEvent(log[k], p)
  }

  lemma {:induction false} LastIdPosition(log: seq<Event>, p: nat) returns (j: nat)
    requires LastId(log, p).Some?
    ensures LastReceived(log, j, p, LastId(log, p).value.0, LastId(log, p).value.1)
  {
    var e := log[|log| - 1];
    if e.ConnIdReceived? && e.p == p {
      j := |log| - 1;
    } else {
      j := LastIdPosition(log[..|log| - 1], p);
    }
  }

  lemma {:induction false} LastAddrPosition(log: seq<Event>, p: nat) returns (j: nat)
    requires LastAddr(log, p).Some?
    ensures LastFound(log, j, p, LastAddr(log, p).value)
  {
    var e := log[|log| - 1];
    if e.Resolved? && e.p == p {
      j := |log| - 1;
    } else {
      j := LastAddrPosition(log[..|log| - 1], p);
    }
  }

  lemma {:induction false} OutstandingPosition(log: seq<Event>, p: nat) returns (j: nat)
    requires Outstanding(log, p).Some?
    ensures UnderWay(log, j, p) && Outstanding(log, p).value == (log[j].txn, log[j].at)
  {
    var e := log[|log| - 1];
    if e.ConnectSent? && e.p == p {
      j := |log| - 1;
    } else {
      j := OutstandingPosition(log[..|log| - 1], p);
    }
  }

  lemma {:induction false} NoneOutstanding(log: seq<Event>, p: nat, j: nat)
    requires Outstanding(log, p) == None && j < |log| && log[j].ConnectSent? && log[j].p == p
    ensures exists k :: j < k < |log| && log[k].ConnectEnded? && log[k].p == p
  {
    var e := log[|log| - 1];
    if !(e.ConnectEnded? && e.p == p) {
      NoneOutstanding(log[..|log| - 1], p, j);
      var k :| j < k < |log| - 1 && log[..|log| - 1][k].ConnectEnded? && log[..|log| - 1][k].p == p;
      assert log[k].ConnectEnded?;
    }
  }

  lemma {:induction false} NeverSent(log: seq<Event>, rid: nat, j: nat)
    requires SentCount(log, rid) == 0 && j < |log|
    ensures !Sends(log[j], rid)
  {
    if j < |log| - 1 {
      NeverSent(log[..|log| - 1], rid, j);
    }
  }

  // ----- connection-ID safety

  ghost predicate Justified(log: seq<Event>, i: nat, p: nat, addr: nat, id: nat, at: nat)
    requires i < |log|
  {
    && (exists j: nat, r: nat :: LastReceived(log[..i], j, p, id, r) && at < r + 45)
    && (exists k: nat :: LastFound(log[..i], k, p, addr))
  }

  // Main result: every datagram that asks for something carries the latest
  // connection ID received on its protocol, less than 45 seconds old, goes to
  // the latest resolved address, and is the first for its request; an announce
  // leaves on its own protocol only.
  lemma ConnectionIdSafety(ticks: seq<Tick>, i: nat)
    requires forall t :: t in ticks ==> Possible(t)
    requires i < |After(ticks).log|
    ensures var log := After(ticks).log;
            match log[i]
            case AnnounceSent(rid, _, own, p, addr, id, at) =>
              && own == p && id != 0 && Justified(log, i, p, addr, id, at)
              && (forall m :: 0 <= m < i ==> !Sends(log[m], rid))
            case ScrapeSent(rid, _, p, addr, id, at) =>
              id != 0 && Justified(log, i, p, addr, id, at) && (forall m :: 0 <= m < i ==> !Sends(log[m], rid))
            case _ => true
  {
    RunsKeepInv(ticks);
    var log := After(ticks).log;
    assert SafeAt(log, i);
    if log[i].AnnounceSent? || log[i].ScrapeSent? {
      SafeDatagramJustified(log, i, log[i].rid, log[i].p, log[i].addr, log[i].id, log[i].at);
    }
  }

  lemma SafeDatagramJustified(log: seq<Event>, i: nat, rid: nat, p: nat, addr: nat, id: nat, at: nat)
    requires i < |log| && SafeDatagram(log[..i], rid, p, addr, id, at)
    ensures Justified(log, i, p, addr, id, at)
    ensures forall m :: 0 <= m < i ==> !Sends(log[m], rid)
  {
    var j := LastIdPosition(log[..i], p);
    var k := LastAddrPosition(log[..i], p);
    forall m | 0 <= m < i
      ensures !Sends(log[m], rid)
    {
      NeverSent(log[..i], rid, m);
    }
  }

  // Main result: at most one connect is under way per protocol. Only the reply
  // with its transaction ID, or 30 seconds passing, ends it, and only such a
  // reply brings a connection ID.
  lemma ConnectDiscipline(ticks: seq<Tick>, i: nat)
    requires forall t :: t in ticks ==> Possible(t)
    requires i < |After(ticks).log|
    ensures var log := After(ticks).log;
            match log[i]
            case ConnectSent(p, _, _, _) =>
              forall j :: 0 <= j < i && log[j].ConnectSent? && log[j].p == p ==>
                            exists k :: j < k < i && log[k].ConnectEnded? && log[k].p == p
            case ConnectEnded(p, txn, cause) =>
              exists j :: && 0 <= j < i && UnderWay(log[..i], j, p) && log[j].txn == txn
                          && (cause.Reply? ==> cause.replyTxn == txn)
                          && (cause.Overdue? ==> log[j].at + 30 < cause.now)
            case ConnIdReceived(p, _, _) =>
              i > 0 && log[i - 1].ConnectEnded? && log[i - 1].p == p && log[i - 1].cause.Reply?
            case _ => true
  {
    RunsKeepInv(ticks);
    var log := After(ticks).log;
    assert SafeAt(log, i);
    match log[i]
    case ConnectSent(p, _, _, _) =>
      forall j | 0 <= j < i && log[j].ConnectSent? && log[j].p == p
        ensures exists k :: j < k < i && log[k].ConnectEnded? && log[k].p == p
      {
        NoneOutstanding(log[..i], p, j);
        var k :| j < k < i && log[..i][k].ConnectEnded? && log[..i][k].p == p;
        assert log[k].ConnectEnded? && log[k].p == p;
      }
    case ConnectEnded(p, _, _) =>
      var j := OutstandingPosition(log[..i], p);
      assert log[j] == log[..i][j];
    case _ =>
  }

  // ----- conservation and verdicts

  // Main result: every request ever queued is pending once or has been settled
  // once, never both, and was sent at most once.
  lemma RequestsConserved(ticks: seq<Tick>, rid: nat)
    requires forall t :: t in ticks ==> Possible(t)
    ensures var s := After(ticks);
            && Pending(s, rid) + SettledCount(s.log, rid) == (if rid < s.nextRid then 1 else 0)
            && SentCount(s.log, rid) <= 1
  {
    RunsKeepInv(ticks);
    assert Conserved(After(ticks), rid);
  }

  // Main result: the answers an announce still waits for are its pending
  // requests; until the last is in, its callback ran once per success; then, if
  // none succeeded, once with the first failure that says most.
  lemma VerdictOfRun(ticks: seq<Tick>, d: nat)
    requires forall t :: t in ticks ==> Possible(t)
    ensures var s := After(ticks);
            var answers, calls := AnswersOf(s.log, d), CallsOf(s.log, d);
            d < s.nextData ==>
            && d in s.aggs && s.aggs[d].sent - s.aggs[d].answered == PendingOf(s, d)
            && (PendingOf(s, d) > 0 || AnySuccess(answers) ==> calls == Successes(answers))
            && (PendingOf(s, d) == 0 && !AnySuccess(answers) ==> |calls| == 1 && FirstMaximal(answers, calls[0]))
  {
    RunsKeepInv(ticks);
    var s := After(ticks);
    assert Accounted(s, d);
    if d < s.nextData {
      VerdictOfState(s, d);
    }
  }

  lemma VerdictOfState(s: State, d: nat)
    requires d < s.nextData && Accounted(s, d)
    ensures var answers, calls := AnswersOf(s.log, d), CallsOf(s.log, d);
            && d in s.aggs && s.aggs[d].sent - s.aggs[d].answered == PendingOf(s, d)
            && (PendingOf(s, d) > 0 || AnySuccess(answers) ==> calls == Successes(answers))
            && (PendingOf(s, d) == 0 && !AnySuccess(answers) ==> |calls| == 1 && FirstMaximal(answers, calls[0]))
  {
    var answers := AnswersOf(s.log, d);
    RunState(PROTOCOLS, answers);
    if |answers| == PROTOCOLS {
      VerdictComplete(PROTOCOLS, answers);
    } else {
      VerdictPartial(PROTOCOLS, answers);
    }
  }
}
