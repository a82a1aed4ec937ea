// All UDP trackers together (class tr_announcer_udp_impl in
// libtransmission/announcer-udp.cc).
module UdpAnnouncer {
  import opened Options
  import opened UdpWire
  import opened UdpMachine
  import opened UdpSafety
  import opened UdpRuns
  import opened UdpReplies
  import opened UdpTracker

  // Tracker k took the message, every earlier one declined it, and no other
  // one changed.
  ghost predicate TakenBy(was: seq<State>, after: seq<State>, k: nat, p: nat, msg: seq<Byte>, now: nat,
                          txns: (nat, nat))
    requires |msg| >= 8 && p <= PROTOCOLS && forall v :: v in was ==> Wf(v)
  {
    && k < |was| && Accepts(was[k], p, msg, now, txns)
    && after == DeliveredAt(was, k, p, msg, now, txns)
    && Declined(was, k, p, msg, now, txns)
  }

  // None of the first k trackers takes the message.
  ghost predicate Declined(views: seq<State>, k: nat, p: nat, msg: seq<Byte>, now: nat, txns: (nat, nat))
    requires |msg| >= 8 && p <= PROTOCOLS && k <= |views| && forall v :: v in views ==> Wf(v)
  {
    forall j :: 0 <= j < k ==> !Accepts(views[j], p, msg, now, txns)
  }

  lemma DeclinedOneMore(views: seq<State>, k: nat, p: nat, msg: seq<Byte>, now: nat, txns: (nat, nat))
    requires |msg| >= 8 && p <= PROTOCOLS && k < |views| && forall v :: v in views ==> Wf(v)
    requires Declined(views, k, p, msg, now, txns) && !Accepts(views[k], p, msg, now, txns)
    ensures Declined(views, k + 1, p, msg, now, txns)
  {
  }

  predicate Accepts(s: State, p: nat, msg: seq<Byte>, now: nat, txns: (nat, nat))
    requires Wf(s) && |msg| >= 8 && p <= PROTOCOLS
  {
    UdpMachine.Handle(s, p, ActionOf(msg), TransactionOf(msg), msg[8..], now, txns).1
  }

  function DeliveredAt(views: seq<State>, k: nat, p: nat, msg: seq<Byte>, now: nat, txns: (nat, nat)): seq<State>
    requires k < |views| && |msg| >= 8 && p <= PROTOCOLS && forall v :: v in views ==> Wf(v)
  {
    views[k := UdpMachine.Handle(views[k], p, ActionOf(msg), TransactionOf(msg), msg[8..], now, txns).0]
  }

  // A message's parts, as they are laid out, are what a tracker is given.
  lemma MessageDelivered(views: seq<State>, k: nat, p: nat, action: nat, txn: nat, body: seq<Byte>, now: nat,
                         txns: (nat, nat))
    requires k < |views| && p <= 2 && (forall v :: v in views ==> Wf(v))
    requires action <= 3 && txn < 0x1_0000_0000
    ensures var m := Message(action, txn, body);
            var (r, mine) := UdpMachine.Handle(views[k], p, action, txn, body, now, txns);
            Accepts(views[k], p, m, now, txns) == mine && DeliveredAt(views, k, p, m, now, txns) == views[k := r]
  {
    MessageReads(action, txn, body);
  }

  function IndexIn(trackers: seq<Tracker>, authority: string): (r: Option<nat>)
    ensures r.Some? ==> r.value < |trackers| && trackers[r.value].authority == authority
    ensures r.None? <==> forall t :: t in trackers ==> t.authority != authority
  {
    if trackers == [] then None
    else if trackers[0].authority == authority then Some(0)
    else
      var rest := IndexIn(trackers[1..], authority);
      if rest.Some? then Some(rest.value + 1) else None
  }

  lemma {:induction false} IndexIsFirst(trackers: seq<Tracker>, authority: string, k: nat)
    requires k < |trackers| && trackers[k].authority == authority
    requires forall j :: 0 <= j < k ==> trackers[j].authority != authority
    ensures IndexIn(trackers, authority) == Some(k)
  {
    if k > 0 {
      IndexIsFirst(trackers[1..], authority, k - 1);
    }
  }

  // All trackers once one for the authority exists, and where it is: one that
  // was not found starts at the end.
  ghost function Joined(views: seq<State>, found: Option<nat>): seq<State> {
    if found.Some? then views else views + [START]
  }

  ghost function Place(found: Option<nat>, n: nat): nat {
    if found.Some? then found.value else n
  }

  // One tracker acts, the others stay as they are.
  ghost function AnnounceAt(views: seq<State>, k: nat, reqTxns: (nat, nat), now: nat, txns: (nat, nat)): seq<State>
    requires k < |views| && forall v :: v in views ==> Wf(v)
  {
    views[k := DoAnnounce(views[k], reqTxns, now, txns)]
  }

  ghost function ScrapeAt(views: seq<State>, k: nat, txn: nat, hasCallback: bool, now: nat, txns: (nat, nat))
    : seq<State>
    requires k < |views| && forall v :: v in views ==> Wf(v)
  {
    views[k := DoScrape(views[k], txn, hasCallback, now, txns)]
  }

  // The invariant of UdpSafety, tracker by tracker.
  ghost predicate AllInv(views: seq<State>) {
    forall v :: v in views ==> Inv(v)
  }

  lemma JoinedKeepsAll(views: seq<State>, found: Option<nat>)
    requires AllInv(views)
    ensures AllInv(Joined(views, found))
  {
    StartInv();
  }

  lemma StepKeepsAll(views: seq<State>, k: nat, t: Tick)
    requires (forall v :: v in views ==> Wf(v)) && AllInv(views) && k < |views| && Possible(t)
    ensures AllInv(views[k := Step(views[k], t)])
  {
    StepKeeps(views[k], t);
  }

  lemma AnnounceKeepsAll(views: seq<State>, found: Option<nat>, reqTxns: (nat, nat), now: nat, txns: (nat, nat))
    requires found.Some? ==> found.value < |views|
    requires (forall v :: v in views ==> Wf(v)) && AllInv(views) && now > 0
    ensures AllInv(AnnounceAt(Joined(views, found), Place(found, |views|), reqTxns, now, txns))
  {
    JoinedKeepsAll(views, found);
    StepKeepsAll(Joined(views, found), Place(found, |views|), Tick(AnnounceIn(reqTxns), now, txns));
  }

  lemma ScrapeKeepsAll(views: seq<State>, found: Option<nat>, txn: nat, hasCallback: bool, now: nat, txns: (nat, nat))
    requires found.Some? ==> found.value < |views|
    requires (forall v :: v in views ==> Wf(v)) && AllInv(views) && now > 0
    ensures AllInv(ScrapeAt(Joined(views, found), Place(found, |views|), txn, hasCallback, now, txns))
  {
    JoinedKeepsAll(views, found);
    StepKeepsAll(Joined(views, found), Place(found, |views|), Tick(ScrapeIn(txn, hasCallback), now, txns));
  }

  lemma UpkeepKeepsAll(was: seq<State>, after: seq<State>, now: nat, txns: seq<(nat, nat)>)
    requires (forall v :: v in was ==> Wf(v)) && AllInv(was) && now > 0 && |was| == |after| == |txns|
    requires forall i :: 0 <= i < |was| ==> after[i] == UdpMachine.Upkeep(was[i], true, now, txns[i])
    ensures AllInv(after)
  {
    forall i | 0 <= i < |after|
      ensures Inv(after[i])
    {
      StepKeeps(was[i], Tick(UpkeepIn, now, txns[i]));
    }
  }

  lemma DeliveryKeepsAll(was: seq<State>, after: seq<State>, k: nat, p: nat, msg: seq<Byte>, now: nat, txns: (nat, nat))
    requires (forall v :: v in was ==> Wf(v)) && AllInv(was) && now > 0 && p <= PROTOCOLS && |msg| >= 8
    requires TakenBy(was, after, k, p, msg, now, txns)
    ensures AllInv(after)
  {
    StepKeepsAll(was, k, Tick(DatagramIn(p, ActionOf(msg), TransactionOf(msg), msg[8..]), now, txns));
  }

  // class tr_announcer_udp_impl
  class Announcer {
    var trackers: seq<Tracker>

    ghost function Footprint(): set<object>
      reads this
    {
      (set t: Tracker | t in trackers :: t as object) + (set t: Tracker | t in trackers :: t.channels as object)
    }

    ghost predicate Valid()
      reads this
    {
      && (forall t :: t in trackers ==> t.Valid())
      && (forall i, j :: 0 <= i < j < |trackers| ==>
                           && trackers[i] != trackers[j] && trackers[i].channels != trackers[j].channels
                           && trackers[i].authority != trackers[j].authority)
    }

    ghost function Views(): (r: seq<State>)
      requires Valid()
      reads this, Footprint()
      ensures |r| == |trackers| && forall i :: 0 <= i < |trackers| ==> r[i] == trackers[i].View()
    {
      seq(|trackers|, i requires 0 <= i < |trackers| && Valid() reads this, Footprint() => trackers[i].View())
    }

    constructor ()
      ensures Valid() && trackers == []
    {
      trackers := [];
    }

    // The tracker of an authority.
    function IndexOf(authority: string): (r: Option<nat>)
      reads this
      ensures r.Some? ==> r.value < |trackers| && trackers[r.value].authority == authority
      ensures r.None? <==> forall t :: t in trackers ==> t.authority != authority
    {
      IndexIn(trackers, authority)
    }

    // get_tracker_from_url(), once the URL has given an authority.
    method GetTracker(authority: string) returns (k: nat)
      requires Valid()
      modifies this`trackers
      ensures Valid() && Some(k) == IndexOf(authority) && k == Place(old(IndexOf(authority)), |old(Views())|)
      ensures Views() == Joined(old(Views()), old(IndexOf(authority)))
      ensures match old(IndexOf(authority))
              case Some(_) => trackers == old(trackers)
              case None => && |trackers| == k + 1 && trackers[..k] == old(trackers)
                           && fresh(trackers[k]) && fresh(trackers[k].channels)
    {
      k := 0;
      while k < |trackers|
        invariant k <= |trackers| && forall j :: 0 <= j < k ==> trackers[j].authority != authority
      {
        if trackers[k].authority == authority {
          IndexIsFirst(trackers, authority, k);
          return;
        }
        k := k + 1;
      }
      AddTracker(authority);
      IndexIsFirst(trackers, authority, k);
    }

    method AddTracker(authority: string)
      requires Valid() && forall t :: t in trackers ==> t.authority != authority
      modifies this`trackers
      ensures Valid() && |trackers| == |old(trackers)| + 1 && trackers[..|trackers| - 1] == old(trackers)
      ensures var t := trackers[|trackers| - 1]; t.authority == authority && fresh(t) && fresh(t.channels)
      ensures Views() == old(Views()) + [START]
    {
      var t := new Tracker(authority);
      trackers := trackers + [t];
    }

    method Announce(authority: Option<string>, reqTxns: (nat, nat), now: nat, txns: (nat, nat))
      requires Valid()
      modifies this`trackers, Footprint()
      ensures Valid() && old(trackers) <= trackers
      ensures AllInv(old(Views())) && now > 0 ==> AllInv(Views())
      ensures match authority
              case None => trackers == old(trackers) && Views() == old(Views())
              case Some(a) =>
                && IndexOf(a) == Some(Place(old(IndexOf(a)), |old(Views())|))
                && var joined := Joined(old(Views()), old(IndexOf(a)));
                   Views() == AnnounceAt(joined, IndexOf(a).value, reqTxns, now, txns)
    {
      if authority == None {
        return;
      }
      var k := GetTracker(authority.value);
      AnnounceOne(k, reqTxns, now, txns);
      if AllInv(old(Views())) && now > 0 {
        AnnounceKeepsAll(old(Views()), old(IndexOf(authority.value)), reqTxns, now, txns);
      }
    }

    // scrape(), likewise.
    method Scrape(authority: Option<string>, txn: nat, hasCallback: bool, now: nat, txns: (nat, nat))
      requires Valid()
      modifies this`trackers, Footprint()
      ensures Valid() && old(trackers) <= trackers
      ensures AllInv(old(Views())) && now > 0 ==> AllInv(Views())
      ensures match authority
              case None => trackers == old(trackers) && Views() == old(Views())
              case Some(a) =>
                && IndexOf(a) == Some(Place(old(IndexOf(a)), |old(Views())|))
                && var joined := Joined(old(Views()), old(IndexOf(a)));
                   Views() == ScrapeAt(joined, IndexOf(a).value, txn, hasCallback, now, txns)
    {
      if authority == None {
        return;
      }
      var k := GetTracker(authority.value);
      ScrapeOne(k, txn, hasCallback, now, txns);
      if AllInv(old(Views())) && now > 0 {
        ScrapeKeepsAll(old(Views()), old(IndexOf(authority.value)), txn, hasCallback, now, txns);
      }
    }

    // One tracker acts, the others stay as they are.
    method UpkeepOne(i: nat, now: nat, txns: (nat, nat))
      requires Valid() && i < |trackers|
      modifies trackers[i], trackers[i].channels
      ensures Views() == old(Views())[i := UdpMachine.Upkeep(old(Views())[i], true, now, txns)]
    {
      trackers[i].Pulse(now, txns);
    }

    method AnnounceOne(i: nat, reqTxns: (nat, nat), now: nat, txns: (nat, nat))
      requires Valid() && i < |trackers|
      modifies trackers[i], trackers[i].channels
      ensures Views() == AnnounceAt(old(Views()), i, reqTxns, now, txns)
    {
      trackers[i].Announce(reqTxns, now, txns);
    }

    method ScrapeOne(i: nat, txn: nat, hasCallback: bool, now: nat, txns: (nat, nat))
      requires Valid() && i < |trackers|
      modifies trackers[i], trackers[i].channels
      ensures Views() == ScrapeAt(old(Views()), i, txn, hasCallback, now, txns)
    {
      trackers[i].Scrape(txn, hasCallback, now, txns);
    }

    method HandleOne(i: nat, p: nat, msg: seq<Byte>, now: nat, txns: (nat, nat)) returns (mine: bool)
      requires Valid() && i < |trackers| && p <= PROTOCOLS && |msg| >= 8
      modifies trackers[i], trackers[i].channels
      ensures mine == Accepts(old(Views())[i], p, msg, now, txns)
      ensures mine ==> Views() == DeliveredAt(old(Views()), i, p, msg, now, txns)
      ensures !mine ==> Views() == old(Views())
    {
      mine := trackers[i].Handle(p, ActionOf(msg), TransactionOf(msg), msg[8..], now, txns);
      assert Views() == if mine then DeliveredAt(old(Views()), i, p, msg, now, txns) else old(Views());
    }

    method UpkeepAll(now: nat, txns: seq<(nat, nat)>)
      requires Valid() && |txns| == |trackers|
      modifies Footprint()
      ensures forall i :: 0 <= i < |trackers| ==> Views()[i] == UdpMachine.Upkeep(old(Views())[i], true, now, txns[i])
      ensures AllInv(old(Views())) && now > 0 ==> AllInv(Views())
    {
      ghost var was := Views();
      for i := 0 to |trackers|
        invariant forall j :: 0 <= j < i ==> Views()[j] == UdpMachine.Upkeep(was[j], true, now, txns[j])
        invariant forall j :: i <= j < |trackers| ==> Views()[j] == was[j]
      {
        UpkeepOne(i, now, txns[i]);
      }
      if AllInv(was) && now > 0 {
        UpkeepKeepsAll(was, Views(), now, txns);
      }
    }

    // handle_message(): a datagram goes to the first tracker it means
    // something to, and to no other.
    method HandleMessage(msg: seq<Byte>, p: nat, now: nat, txns: (nat, nat)) returns (mine: bool)
      requires Valid() && p <= PROTOCOLS
      modifies Footprint()
      ensures mine ==> Understood(msg) && exists k :: TakenBy(old(Views()), Views(), k, p, msg, now, txns)
      ensures !mine ==> Views() == old(Views())
      ensures !mine && Understood(msg) ==> Declined(old(Views()), |trackers|, p, msg, now, txns)
      ensures AllInv(old(Views())) && now > 0 ==> AllInv(Views())
    {
      if |msg| < 8 {
        return false;
      }
      if !IsResponseMessage(ActionOf(msg), |msg|) {
        return false;
      }
      mine := Offer(msg, p, now, txns);
      if mine && AllInv(old(Views())) && now > 0 {
        ghost var k :| TakenBy(old(Views()), Views(), k, p, msg, now, txns);
        DeliveryKeepsAll(old(Views()), Views(), k, p, msg, now, txns);
      }
    }

    // The search for the tracker that takes the message.
    method Offer(msg: seq<Byte>, p: nat, now: nat, txns: (nat, nat)) returns (mine: bool)
      requires Valid() && p <= PROTOCOLS && |msg| >= 8
      modifies Footprint()
      ensures mine ==> exists k :: TakenBy(old(Views()), Views(), k, p, msg, now, txns)
      ensures !mine ==> Views() == old(Views()) && Declined(old(Views()), |trackers|, p, msg, now, txns)
    {
      ghost var was := Views();
      var i, n := 0, |trackers|;
      while i < n
        invariant i <= n && Views() == was
        invariant Declined(was, i, p, msg, now, txns)
      {
        mine := HandleOne(i, p, msg, now, txns);
        if mine {
          assert TakenBy(was, Views(), i, p, msg, now, txns);
          return;
        }
        DeclinedOneMore(was, i, p, msg, now, txns);
        i := i + 1;
      }
      return false;
    }
  }
}
