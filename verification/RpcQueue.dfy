// A chain of RPC steps (libtransmission-app/rpc-queue.h).
module RpcQueue {
  import opened Options

  // `body` stands for whatever else a response holds.
  datatype Response = Response(success: bool, networkError: bool, body: int)

  const NO_RESPONSE := Response(false, false, 0)

  // make_ok_response()
  const OK_RESPONSE := Response(true, false, 0)

  // An auxiliary step's result is OK_RESPONSE, at once; any other step calls its
  // continuation later, once.
  datatype Step = Step(id: nat, auxiliary: bool, hasHandler: bool)

  // Calls into the user's code.
  datatype Event = Ran(id: nat, prev: Response) | Handled(id: nat, failure: Response) | Finally

  predicate Succeeded(r: Response) {
    r.success && !r.networkError
  }

  // ----- what a run should do

  // The first k steps run in order, each given the result before it.
  function Started(all: seq<Step>, results: seq<Response>, k: nat): (r: seq<Event>)
    requires k <= |all| && k <= |results| + 1
    ensures |r| == k
  {
    if k == 0 then []
    else Started(all, results, k - 1) + [Ran(all[k - 1].id, if k == 1 then NO_RESPONSE else results[k - 2])]
  }

  lemma {:induction false} StartedAt(all: seq<Step>, results: seq<Response>, k: nat, i: nat)
    requires i < k <= |all| && k <= |results| + 1
    ensures Started(all, results, k)[i] == Ran(all[i].id, if i == 0 then NO_RESPONSE else results[i - 1])
  {
    if i < k - 1 {
      StartedAt(all, results, k - 1, i);
    }
  }

  // The handler of the step that failed, unless the network did, and then the
  // final call.
  function Ending(all: seq<Step>, results: seq<Response>, hasFinally: bool): seq<Event>
    requires |results| <= |all|
  {
    var n := |results|;
    (if n > 0 && !results[n - 1].networkError && !results[n - 1].success && all[n - 1].hasHandler
     then [Handled(all[n - 1].id, results[n - 1])] else [])
    + if hasFinally then [Finally] else []
  }

  // Every result but the last is a success.
  ghost predicate OnlyLastFails(results: seq<Response>) {
    forall i :: 0 <= i < |results| - 1 ==> Succeeded(results[i])
  }

  ghost predicate WholeRun(all: seq<Step>, results: seq<Response>, hasFinally: bool, log: seq<Event>) {
    && |results| <= |all| && OnlyLastFails(results)
    && (|results| < |all| ==> results != [] && !Succeeded(results[|results| - 1]))
    && log == Started(all, results, |results|) + Ending(all, results, hasFinally)
  }

  // The calls a finished chain ends with: the failed step's own handler, unless
  // the network failed, and then the final call.
  predicate EndsWith(ending: seq<Event>, all: seq<Step>, results: seq<Response>, hasFinally: bool)
    requires |results| <= |all|
  {
    var n := |results|;
    var handled := n > 0 && !results[n - 1].networkError && !results[n - 1].success && all[n - 1].hasHandler;
    && |ending| == (if handled then 1 else 0) + (if hasFinally then 1 else 0)
    && (handled ==> ending[0] == Handled(all[n - 1].id, results[n - 1]))
    && (hasFinally ==> ending[|ending| - 1] == Finally)
  }

  // Main result: every call in a finished chain's log. Each step that ran did so
  // in its turn, after success of the one before and with its result.
  lemma WholeRunMeaning(all: seq<Step>, results: seq<Response>, hasFinally: bool, log: seq<Event>)
    requires WholeRun(all, results, hasFinally, log)
    ensures |results| <= |log| && EndsWith(log[|results|..], all, results, hasFinally)
    ensures forall i :: 0 <= i < |results| ==>
              && log[i] == Ran(all[i].id, if i == 0 then Response(false, false, 0) else results[i - 1])
              && (i > 0 ==> results[i - 1].success && !results[i - 1].networkError)
  {
    var n := |results|;
    assert log[n..] == Ending(all, results, hasFinally);
    forall i | 0 <= i < n
      ensures log[i] == Ran(all[i].id, if i == 0 then NO_RESPONSE else results[i - 1])
    {
      StartedAt(all, results, n, i);
      assert log[i] == Started(all, results, n)[i];
    }
  }

  // A step runs exactly if all before it succeeded.
  lemma StepsRunIff(all: seq<Step>, results: seq<Response>, hasFinally: bool, log: seq<Event>, k: nat)
    requires WholeRun(all, results, hasFinally, log) && k < |all|
    ensures k < |results| <==>
              k <= |results| && forall i :: 0 <= i < k ==> results[i].success && !results[i].networkError
  {
  }

  // An auxiliary step succeeds on the spot, with an empty response.
  ghost predicate AuxiliariesOk(all: seq<Step>, results: seq<Response>) {
    forall i :: 0 <= i < |results| && i < |all| && all[i].auxiliary ==> results[i] == Response(true, false, 0)
  }

  // ----- the class

  datatype Phase = Building | Waiting | Finished

  class Queue {
    var queue: seq<Step>
    var nextHandler: Option<nat>
    var hasFinally: bool
    var keepalive: bool
    ghost var phase: Phase
    ghost var all: seq<Step>
    ghost var results: seq<Response>
    ghost var log: seq<Event>

    ghost predicate Valid()
      reads this
    {
      match phase
      case Building => keepalive && all == queue && results == [] && log == []
      case Waiting =>
        var k := |results| + 1;
        && keepalive && k <= |all| && queue == all[k..] && (forall r :: r in results ==> Succeeded(r))
        && log == Started(all, results, k) && nextHandler == HandlerOf(all[k - 1])
      case Finished => !keepalive && WholeRun(all, results, hasFinally, log)
    }

    // create()
    constructor ()
      ensures Valid() && phase == Building && queue == [] && !hasFinally
    {
      queue, nextHandler, hasFinally, keepalive := [], None, false, true;
      phase, all, results, log := Building, [], [], [];
    }

    method Add(step: Step)
      requires Valid() && phase == Building
      modifies this
      ensures Valid() && phase == Building && queue == old(queue) + [step] && hasFinally == old(hasFinally)
    {
      queue := queue + [step];
      all := queue;
    }

    method SetFinally()
      requires Valid() && phase == Building
      modifies this
      ensures Valid() && phase == Building && queue == old(queue) && hasFinally
    {
      hasFinally := true;
    }

    method Run()
      requires Valid() && phase == Building
      modifies this
      ensures Valid() && phase != Building && all == old(queue) && hasFinally == old(hasFinally)
      ensures old(queue) == [] ==> phase == Finished
      ensures AuxiliariesOk(all, results) && (phase == Waiting ==> !all[|results|].auxiliary)
    {
      if queue == [] {
        Finish();
        return;
      }
      RunNext(NO_RESPONSE);
    }

    method RunNext(prev: Response)
      requires keepalive && queue != [] && |results| < |all| && queue == all[|results|..]
      requires (forall r :: r in results ==> Succeeded(r)) && log == Started(all, results, |results|)
      requires prev == if results == [] then NO_RESPONSE else results[|results| - 1]
      modifies this
      ensures Valid() && phase != Building && all == old(all) && hasFinally == old(hasFinally)
              && old(results) <= results
      ensures AuxiliariesOk(all, old(results)) ==> AuxiliariesOk(all, results)
      ensures phase == Waiting ==> !all[|results|].auxiliary
      decreases |queue|, 0
    {
      var front := queue[0];
      queue := queue[1..];
      nextHandler := HandlerOf(front);
      log := log + [Ran(front.id, prev)];
      phase := Waiting;
      if front.auxiliary {
        StepFinished(OK_RESPONSE);
      }
    }

    // step_finished(): the continuation of the step that runs.
    method StepFinished(result: Response)
      requires Valid() && phase == Waiting
      modifies this
      ensures Valid() && phase != Building && all == old(all) && hasFinally == old(hasFinally)
      ensures old(results) + [result] <= results
      ensures !Succeeded(result) ==> phase == Finished && results == old(results) + [result]
      ensures AuxiliariesOk(all, old(results) + [result]) ==> AuxiliariesOk(all, results)
      ensures phase == Waiting ==> !all[|results|].auxiliary
      decreases |queue|, 1
    {
      ghost var before := results;
      results := results + [result];
      StartedSame(all, before, result, |before| + 1);
      if result.networkError {
        Finish();
        return;
      }
      if !result.success && nextHandler.Some? {
        log := log + [Handled(nextHandler.value, result)];
      }
      if result.success && queue != [] {
        RunNext(result);
        return;
      }
      Finish();
    }

    // finish(), after the last handler has run.
    method Finish()
      requires |results| <= |all| && OnlyLastFails(results)
      requires |results| < |all| ==> results != [] && !Succeeded(results[|results| - 1])
      requires log == Started(all, results, |results|) + Ending(all, results, false)
      modifies this`keepalive, this`log, this`phase
      ensures Valid() && phase == Finished
    {
      if hasFinally {
        log := log + [Finally];
      }
      keepalive := false;
      phase := Finished;
    }
  }

  function HandlerOf(step: Step): Option<nat> {
    if step.hasHandler then Some(step.id) else None
  }

  lemma {:induction false} StartedSame(all: seq<Step>, results: seq<Response>, r: Response, k: nat)
    requires k <= |all| && k <= |results| + 1
    ensures Started(all, results + [r], k) == Started(all, results, k)
  {
    if k > 0 {
      StartedSame(all, results, r, k - 1);
    }
  }
}
