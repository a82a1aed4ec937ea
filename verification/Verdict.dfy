// Several requests, one verdict: the aggregator shared by the requests of one
// announce (tau_announce_data in libtransmission/announcer-udp.cc and
// http_announce_data in libtransmission/announcer-http.cc).
module Verdict {
  import opened Options

  datatype Response = Response(didConnect: bool, didTimeout: bool, errmsg: string,
                               interval: nat, leechers: Option<nat>, seeders: Option<nat>, peers: seq<nat>)

  const EMPTY_RESPONSE := Response(false, false, "", 0, None, None, [])

  datatype Answer = Answer(response: Response, success: bool)

  function Compare(a: bool, b: bool): int {
    if a == b then 0 else if b then -1 else 1
  }

  // tr_announce_response::compare_failed()
  function CompareFailed(l: Response, r: Response): int {
    if Compare(l.didConnect, r.didConnect) != 0 then Compare(l.didConnect, r.didConnect)
    else if Compare(r.didTimeout, l.didTimeout) != 0 then Compare(r.didTimeout, l.didTimeout)
    else Compare(r.errmsg == "", l.errmsg == "")
  }

  // A failure that says more: a total preorder, so "maximal" makes sense.
  lemma CompareFailedOrders(a: Response, b: Response, c: Response)
    ensures CompareFailed(a, a) == 0
    ensures CompareFailed(a, b) < 0 <==> CompareFailed(b, a) > 0
    ensures CompareFailed(a, b) <= 0 && CompareFailed(b, c) <= 0 ==> CompareFailed(a, c) <= 0
    ensures CompareFailed(a, b) < 0 && CompareFailed(b, c) <= 0 ==> CompareFailed(a, c) < 0
    ensures CompareFailed(a, b) <= 0 && CompareFailed(b, c) < 0 ==> CompareFailed(a, c) < 0
  {
  }

  // How much a failure says: connecting counts most, then not timing out, then
  // a message.
  function Rank(r: Response): nat {
    (if r.didConnect then 4 else 0) + (if r.didTimeout then 0 else 2) + if r.errmsg != "" then 1 else 0
  }

  lemma CompareFailedIsRank(l: Response, r: Response)
    ensures CompareFailed(l, r) < 0 <==> Rank(l) < Rank(r)
    ensures CompareFailed(l, r) > 0 <==> Rank(l) > Rank(r)
  {
  }

  // ----- the aggregator

  const UINT8: nat := 256

  // ++ on an 8-bit counter.
  function Inc8(n: nat): nat {
    if n + 1 < UINT8 then n + 1 else 0
  }

  datatype Agg = Agg(succeeded: bool, failed: Option<Response>, sent: nat, answered: nat)

  function NewAgg(sent: nat): Agg {
    Agg(false, None, sent, 0)
  }

  // on_response(): the new state and the callbacks made. The counters are
  // 8-bit.
  function Take(g: Agg, a: Answer): (r: (Agg, seq<Response>))
    ensures |r.1| <= 1
  {
    var answered := Inc8(g.answered);
    var h := g.(answered := answered);
    if a.success then (h.(succeeded := true), [a.response])
    else if g.succeeded then (h, [])
    else
      var best := if g.failed == None || CompareFailed(g.failed.value, a.response) < 0 then a.response
                  else g.failed.value;
      (h.(failed := Some(best)), if answered == g.sent then [best] else [])
  }

  // The state and all callbacks after some answers.
  function Run(sent: nat, answers: seq<Answer>): (Agg, seq<Response>) {
    if answers == [] then (NewAgg(sent), [])
    else
      var (g, made) := Run(sent, answers[..|answers| - 1]);
      var (h, more) := Take(g, answers[|answers| - 1]);
      (h, made + more)
  }

  lemma RunSnoc(sent: nat, answers: seq<Answer>, a: Answer)
    ensures var (g, made) := Run(sent, answers);
            var (h, more) := Take(g, a);
            Run(sent, answers + [a]) == (h, made + more)
  {
    assert (answers + [a])[..|answers|] == answers;
  }

  // ----- what the verdict should be

  predicate AnySuccess(answers: seq<Answer>) {
    exists i :: 0 <= i < |answers| && answers[i].success
  }

  function Successes(answers: seq<Answer>): seq<Response> {
    if answers == [] then []
    else
      var last := answers[|answers| - 1];
      Successes(answers[..|answers| - 1]) + if last.success then [last.response] else []
  }

  // The first among the failures that say most.
  ghost predicate FirstMaximal(answers: seq<Answer>, r: Response) {
    exists i :: 0 <= i < |answers| && answers[i].response == r
                && (forall j :: 0 <= j < |answers| ==> Rank(answers[j].response) <= Rank(r))
                && (forall j :: 0 <= j < i ==> Rank(answers[j].response) < Rank(r))
  }

  lemma FirstMaximalSnoc(answers: seq<Answer>, best: Response, a: Answer)
    requires FirstMaximal(answers, best)
    ensures FirstMaximal(answers + [a], if CompareFailed(best, a.response) < 0 then a.response else best)
  {
    CompareFailedIsRank(best, a.response);
    var all := answers + [a];
    var i :| 0 <= i < |answers| && answers[i].response == best
             && (forall j :: 0 <= j < |answers| ==> Rank(answers[j].response) <= Rank(best))
             && (forall j :: 0 <= j < i ==> Rank(answers[j].response) < Rank(best));
    if Rank(best) < Rank(a.response) {
      assert all[|answers|] == a;
      assert forall j :: 0 <= j < |answers| ==> all[j] == answers[j];
    } else {
      assert all[i] == answers[i];
      assert forall j :: 0 <= j < |answers| ==> all[j] == answers[j];
    }
  }

  lemma AnySuccessSnoc(answers: seq<Answer>, a: Answer)
    ensures AnySuccess(answers + [a]) <==> AnySuccess(answers) || a.success
  {
    var all := answers + [a];
    assert all[|answers|] == a && forall i :: 0 <= i < |answers| ==> all[i] == answers[i];
  }

  // What the aggregator holds after `answers`.
  ghost predicate Holds(g: Agg, sent: nat, answers: seq<Answer>) {
    && g.sent == sent && g.answered == |answers|
    && (g.succeeded <==> AnySuccess(answers))
    && (!g.succeeded && answers != [] ==> g.failed.Some? && FirstMaximal(answers, g.failed.value))
    && (answers == [] ==> g.failed == None)
  }

  lemma TakeHolds(g: Agg, sent: nat, answers: seq<Answer>, a: Answer)
    requires Holds(g, sent, answers) && |answers| < sent < UINT8
    ensures Holds(Take(g, a).0, sent, answers + [a])
  {
    AnySuccessSnoc(answers, a);
    if !a.success && !g.succeeded {
      if answers == [] {
        OnlyFailure(a);
        assert answers + [a] == [a];
      } else {
        FirstMaximalSnoc(answers, g.failed.value, a);
      }
    }
  }

  lemma OnlyFailure(a: Answer)
    ensures FirstMaximal([a], a.response)
  {
    assert [a][0].response == a.response;
  }

  // The state after no more answers than requests.
  lemma {:induction false} RunState(sent: nat, answers: seq<Answer>)
    requires |answers| <= sent < UINT8
    ensures Holds(Run(sent, answers).0, sent, answers)
  {
    if answers == [] {
      assert !AnySuccess(answers);
    } else {
      var init, last := answers[..|answers| - 1], answers[|answers| - 1];
      assert answers == init + [last];
      RunState(sent, init);
      TakeHolds(Run(sent, init).0, sent, init, last);
    }
  }

  // Until the last answer is in, only successes are passed on.
  lemma {:induction false} VerdictPartial(sent: nat, answers: seq<Answer>)
    requires |answers| < sent < UINT8
    ensures Run(sent, answers).1 == Successes(answers)
  {
    if answers != [] {
      RunState(sent, answers[..|answers| - 1]);
      VerdictPartial(sent, answers[..|answers| - 1]);
    }
  }

  // Main result: with all answers in, the callback ran once per success, or,
  // with no success, exactly once with the first failure that says most.
  lemma {:induction false} VerdictComplete(sent: nat, answers: seq<Answer>)
    requires |answers| == sent && 0 < sent < UINT8
    ensures var made := Run(sent, answers).1;
            if AnySuccess(answers) then made == Successes(answers)
            else |made| == 1 && FirstMaximal(answers, made[0])
  {
    var init, last := answers[..sent - 1], answers[sent - 1];
    assert answers == init + [last];
    RunState(sent, init);
    RunState(sent, answers);
    VerdictPartial(sent, init);
    if !AnySuccess(answers) {
      assert !last.success;
      NoSuccesses(init);
    }
  }

  lemma {:induction false} NoSuccesses(answers: seq<Answer>)
    requires forall i :: 0 <= i < |answers| ==> !answers[i].success
    ensures Successes(answers) == []
  {
    if answers != [] {
      NoSuccesses(answers[..|answers| - 1]);
    }
  }

  // ----- the HTTP announcer's copy

  // http_announce_data together with onAnnounceDone()
  class HttpAnnounceData {
    var failed: Option<Response>
    var sent: nat
    var answered: nat
    var succeeded: bool
    var deleted: bool
    ghost var answers: seq<Answer>
    ghost var made: seq<Response>

    function AsAgg(): Agg
      reads this
    {
      Agg(succeeded, failed, sent, answered)
    }

    ghost predicate Valid()
      reads this
    {
      && 0 < sent < UINT8 && |answers| <= sent
      && (AsAgg(), made) == Run(sent, answers)
      && (deleted <==> |answers| == sent)
    }

    constructor (sent: nat)
      requires sent == 1 || sent == 2
      ensures Valid() && this.sent == sent && answers == [] && made == []
    {
      failed, this.sent, answered, succeeded, deleted := None, sent, 0, false, false;
      answers, made := [], [];
    }

    // onAnnounceDone(): `handled` is what handleAnnounceResponse() made of the
    // reply. Once all answers are in, the object is gone and nothing may call
    // it again.
    method OnAnnounceDone(handled: Answer) returns (callback: Option<Response>)
      requires Valid() && !deleted
      modifies this
      ensures Valid() && sent == old(sent) && answers == old(answers) + [handled]
      ensures made == old(made) + AsSeq(callback)
      ensures deleted && AnySuccess(answers) ==> made == Successes(answers)
      ensures deleted && !AnySuccess(answers) ==> |made| == 1 && FirstMaximal(answers, made[0])
    {
      RunState(sent, answers);
      callback := Record(handled);
      answers := answers + [handled];
      made := made + AsSeq(callback);
      RunSnoc(sent, old(answers), handled);
      if deleted {
        VerdictComplete(sent, answers);
      }
    }

    method Record(handled: Answer) returns (callback: Option<Response>)
      requires !deleted
      modifies this`answered, this`succeeded, this`failed, this`deleted
      ensures (AsAgg(), AsSeq(callback)) == Take(old(AsAgg()), handled)
      ensures deleted <==> answered == sent
    {
      callback := None;
      answered := Inc8(answered);
      var gotAll := answered == sent;
      if handled.success {
        callback := Some(handled.response);
        succeeded := true;
      } else if !succeeded {
        if failed == None || CompareFailed(failed.value, handled.response) < 0 {
          failed := Some(handled.response);
        }
        if gotAll {
          callback := failed;
        }
      }
      if gotAll {
        deleted := true;
      }
    }
  }

  function AsSeq<T>(o: Option<T>): seq<T> {
    if o.Some? then [o.value] else []
  }
}
