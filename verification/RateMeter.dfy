// The speed meter of a bandwidth object: an 8-slot circular history and a cache
// (libtransmission/bandwidth.cc, libtransmission/bandwidth.h).
//
// The reference is an unbounded log of buckets, and behind that the plain list
// of byte transfers that were notified.
module RateMeter {

  const HISTORY_MSEC: nat := 2000
  const GRANULARITY_MSEC: nat := 250
  const HISTORY_SIZE: nat := 8  // HISTORY_MSEC / GRANULARITY_MSEC
  const UINT64: nat := 0x1_0000_0000_0000_0000

  // `bytes` were transferred at time `at`.
  datatype Transfer = Transfer(at: nat, bytes: nat)

  datatype Bucket = Bucket(date: nat, size: nat)

  // ----- the unbounded log

  // A fresh meter has one bucket dated 0, the slot `newest_` points at.
  const EMPTY_LOG: seq<Bucket> := [Bucket(0, 0)]

  function Last(log: seq<Bucket>): Bucket
    requires log != []
  {
    log[|log| - 1]
  }

  // A transfer joins the newest bucket within the granularity, and otherwise
  // opens a new one.
  function AddToLog(log: seq<Bucket>, now: nat, bytes: nat): (r: seq<Bucket>)
    requires log != []
    ensures r != []
  {
    if Last(log).date + GRANULARITY_MSEC >= now
    then log[|log| - 1 := Bucket(Last(log).date, Last(log).size + bytes)]
    else log + [Bucket(now, bytes)]
  }

  function LogOf(transfers: seq<Transfer>): (r: seq<Bucket>)
    ensures r != []
  {
    if transfers == [] then EMPTY_LOG
    else
      var e := transfers[|transfers| - 1];
      AddToLog(LogOf(transfers[..|transfers| - 1]), e.at, e.bytes)
  }

  // Bytes in the buckets dated after the cutoff.
  function BytesAfter(log: seq<Bucket>, cutoff: nat): nat {
    if log == [] then 0
    else BytesAfter(log[..|log| - 1], cutoff) + if Last(log).date > cutoff then Last(log).size else 0
  }

  // Bytes really transferred after a moment.
  function TransferredAfter(transfers: seq<Transfer>, moment: nat): nat {
    if transfers == [] then 0
    else
      var e := transfers[|transfers| - 1];
      TransferredAfter(transfers[..|transfers| - 1], moment) + if e.at > moment then e.bytes else 0
  }

  lemma Appended(transfers: seq<Transfer>, e: Transfer)
    ensures LogOf(transfers + [e]) == AddToLog(LogOf(transfers), e.at, e.bytes)
  {
    assert (transfers + [e])[..|transfers|] == transfers;
  }

  ghost predicate Chronological(transfers: seq<Transfer>) {
    forall i, j :: 0 <= i < j < |transfers| ==> transfers[i].at <= transfers[j].at
  }

  // Consecutive buckets are more than the granularity apart.
  ghost predicate Spaced(log: seq<Bucket>) {
    forall i :: 0 < i < |log| ==> log[i - 1].date + GRANULARITY_MSEC < log[i].date
  }

  lemma {:induction false} LogIsSpaced(transfers: seq<Transfer>)
    ensures Spaced(LogOf(transfers))
  {
    if transfers != [] {
      LogIsSpaced(transfers[..|transfers| - 1]);
    }
  }

  lemma {:induction false} SpacedAscends(log: seq<Bucket>, i: nat, j: nat)
    requires Spaced(log) && i <= j < |log|
    ensures log[i].date <= log[j].date
    decreases j
  {
    if i < j {
      SpacedAscends(log, i, j - 1);
    }
  }

  // A bucket that 8 newer ones have pushed out is at least 8 * 251 ms older
  // than the last of them.
  lemma EvictedIsOld(log: seq<Bucket>, i: nat, j: nat)
    requires Spaced(log) && i + HISTORY_SIZE <= j < |log|
    ensures log[i].date + 8 * 251 <= log[j].date
  {
    assert log[i].date + 251 <= log[i + 1].date;
    assert log[i].date + 2 * 251 <= log[i + 2].date;
    assert log[i].date + 3 * 251 <= log[i + 3].date;
    assert log[i].date + 4 * 251 <= log[i + 4].date;
    assert log[i].date + 5 * 251 <= log[i + 5].date;
    assert log[i].date + 6 * 251 <= log[i + 6].date;
    assert log[i].date + 7 * 251 <= log[i + 7].date;
    SpacedAscends(log, i + 8, j);
  }

  // Old buckets at the front contribute nothing.
  lemma {:induction false} BytesAfterDrop(log: seq<Bucket>, k: nat, cutoff: nat)
    requires k <= |log|
    requires forall i :: 0 <= i < k ==> log[i].date <= cutoff
    ensures BytesAfter(log, cutoff) == BytesAfter(log[k..], cutoff)
  {
    if |log| == k {
      BytesAfterNone(log, cutoff);
    } else {
      BytesAfterDrop(log[..|log| - 1], k, cutoff);
      assert log[k..][..|log| - k - 1] == log[..|log| - 1][k..];
    }
  }

  lemma {:induction false} BytesAfterNone(log: seq<Bucket>, cutoff: nat)
    requires forall i :: 0 <= i < |log| ==> log[i].date <= cutoff
    ensures BytesAfter(log, cutoff) == 0
  {
    if log != [] {
      BytesAfterNone(log[..|log| - 1], cutoff);
    }
  }

  lemma {:induction false} BytesAfterSuffix(log: seq<Bucket>, k: nat, cutoff: nat)
    requires k < |log|
    ensures BytesAfter(log[k..], cutoff)
         == BytesAfter(log[k + 1..], cutoff) + if log[k].date > cutoff then log[k].size else 0
  {
    var s := log[k..];
    if |s| > 1 {
      BytesAfterSuffix(log[..|log| - 1], k, cutoff);
      assert s[..|s| - 1] == log[..|log| - 1][k..];
      assert log[k + 1..][..|s| - 2] == log[..|log| - 1][k + 1..];
    } else {
      assert s == [log[k]] && log[k + 1..] == [] && s[..0] == [];
    }
  }

  // The newest bucket is never dated after the newest transfer.
  lemma {:induction false} NewestNotAfter(transfers: seq<Transfer>, now: nat)
    requires forall i :: 0 <= i < |transfers| ==> transfers[i].at <= now
    ensures Last(LogOf(transfers)).date <= now
  {
    if transfers != [] {
      NewestNotAfter(transfers[..|transfers| - 1], now);
    }
  }

  // Main result on buckets: for any cutoff, the bucketed count lies between the
  // true bytes since the cutoff and the true bytes since one granule later.
  // With cutoff = now - 2000 these are the last 2000 ms and the last 1750 ms.
  lemma {:induction false} BucketsSandwich(transfers: seq<Transfer>, cutoff: nat)
    requires Chronological(transfers)
    ensures TransferredAfter(transfers, cutoff + GRANULARITY_MSEC) <= BytesAfter(LogOf(transfers), cutoff)
    ensures BytesAfter(LogOf(transfers), cutoff) <= TransferredAfter(transfers, cutoff)
  {
    if transfers == [] {
      assert EMPTY_LOG[..0] == [];
    } else {
      var init := transfers[..|transfers| - 1];
      var e := transfers[|transfers| - 1];
      BucketsSandwich(init, cutoff);
      NewestNotAfter(init, e.at);
      var log := LogOf(init);
      if Last(log).date + GRANULARITY_MSEC >= e.at {
        var grown := log[|log| - 1 := Bucket(Last(log).date, Last(log).size + e.bytes)];
        assert grown[..|log| - 1] == log[..|log| - 1];
      } else {
        assert (log + [Bucket(e.at, e.bytes)])[..|log|] == log;
      }
    }
  }

  // ----- the meter

  function Cutoff(now: nat): nat
    requires now < UINT64
  {
    if now >= HISTORY_MSEC then now - HISTORY_MSEC else now + UINT64 - HISTORY_MSEC  // unsigned wrap-around
  }

  // What a walk without a cache reports at time `now`.
  function Fresh(transfers: seq<Transfer>, now: nat): nat
    requires now < UINT64
  {
    Speed(BytesAfter(LogOf(transfers), Cutoff(now)))
  }

  function Speed(bytes: nat): nat {
    bytes * 1000 / HISTORY_MSEC
  }

  // The slot that holds the k-th newest bucket.
  function Slot(newest: nat, k: nat): (i: nat)
    requires k < HISTORY_SIZE && newest < HISTORY_SIZE
    ensures i < HISTORY_SIZE
  {
    if k <= newest then newest - k else newest + HISTORY_SIZE - k
  }

  // The ring holds the newest 8 buckets of the unbounded log.
  ghost predicate Mirrors(date: seq<nat>, size: seq<nat>, newest: nat, log: seq<Bucket>) {
    && |date| == |size| == HISTORY_SIZE && newest < HISTORY_SIZE
    && forall k :: 0 <= k < HISTORY_SIZE ==>
         Bucket(date[Slot(newest, k)], size[Slot(newest, k)]) == NthNewest(log, k)
  }

  function NthNewest(log: seq<Bucket>, k: nat): Bucket {
    if k < |log| then log[|log| - 1 - k] else Bucket(0, 0)
  }

  lemma RingMerges(date: seq<nat>, size: seq<nat>, newest: nat, log: seq<Bucket>, bytes: nat)
    requires Mirrors(date, size, newest, log) && log != []
    ensures Mirrors(date, size[newest := size[newest] + bytes], newest,
                    log[|log| - 1 := Bucket(Last(log).date, Last(log).size + bytes)])
    ensures date[newest] == Last(log).date
  {
    assert Slot(newest, 0) == newest;
    assert NthNewest(log, 0) == Last(log);
  }

  lemma RingAdvances(date: seq<nat>, size: seq<nat>, newest: nat, log: seq<Bucket>, b: Bucket)
    requires Mirrors(date, size, newest, log)
    ensures var next := if newest + 1 == HISTORY_SIZE then 0 else newest + 1;
            Mirrors(date[next := b.date], size[next := b.size], next, log + [b])
  {
    var next := if newest + 1 == HISTORY_SIZE then 0 else newest + 1;
    forall k | 0 < k < HISTORY_SIZE
      ensures Slot(next, k) == Slot(newest, k - 1) != next
      ensures NthNewest(log + [b], k) == NthNewest(log, k - 1)
    {
    }
  }

  // Bytes in the newest k buckets dated after the cutoff.
  ghost function BytesOfNewest(log: seq<Bucket>, k: nat, cutoff: nat): nat
    requires k <= |log|
  {
    BytesAfter(log[|log| - k..], cutoff)
  }

  // One turn of the walk, seen from the log.
  lemma WalkStep(date: seq<nat>, size: seq<nat>, newest: nat, log: seq<Bucket>, k: nat, cutoff: nat)
    requires Mirrors(date, size, newest, log) && k < HISTORY_SIZE && k <= |log|
    ensures date[Slot(newest, k)] > cutoff ==>
              && k < |log|
              && BytesOfNewest(log, k + 1, cutoff) == BytesOfNewest(log, k, cutoff) + size[Slot(newest, k)]
    ensures date[Slot(newest, k)] <= cutoff ==> k == |log| || log[|log| - 1 - k].date <= cutoff
  {
    var b := Bucket(date[Slot(newest, k)], size[Slot(newest, k)]);
    assert b == NthNewest(log, k);
    if k < |log| {
      BytesAfterSuffix(log, |log| - k - 1, cutoff);
    }
  }

  // The walk stands at slot i, the k-th newest, having summed the k newer ones.
  ghost predicate Walked(date: seq<nat>, size: seq<nat>, newest: nat, log: seq<Bucket>, k: nat, cutoff: nat, i: nat,
                         bytes: nat)
  {
    && Mirrors(date, size, newest, log) && k < HISTORY_SIZE && k <= |log| && i == Slot(newest, k)
    && bytes == BytesOfNewest(log, k, cutoff)
    && (date[i] > cutoff ==> k < |log| && bytes + size[i] == BytesOfNewest(log, k + 1, cutoff))
    && (date[i] <= cutoff ==> k == |log| || log[|log| - 1 - k].date <= cutoff)
  }

  // The next older slot.
  function Before(i: nat): (r: nat)
    requires i < HISTORY_SIZE
    ensures r < HISTORY_SIZE
  {
    if i == 0 then HISTORY_SIZE - 1 else i - 1
  }

  lemma WalkNext(date: seq<nat>, size: seq<nat>, newest: nat, log: seq<Bucket>, k: nat, cutoff: nat, i: nat, bytes: nat)
    requires i < HISTORY_SIZE && |date| == |size| == HISTORY_SIZE && date[i] > cutoff
    requires Walked(date, size, newest, log, k, cutoff, i, bytes)
    ensures k < |log| && bytes + size[i] == BytesOfNewest(log, k + 1, cutoff)
    ensures Before(i) == newest <==> k + 1 == HISTORY_SIZE
    ensures Before(i) != newest ==> Walked(date, size, newest, log, k + 1, cutoff, Before(i), bytes + size[i])
  {
    if k + 1 < HISTORY_SIZE {
      assert Before(i) == Slot(newest, k + 1);
      WalkStep(date, size, newest, log, k + 1, cutoff);
    }
  }

  class RateControl {
    const date: array<nat>
    const size: array<nat>
    var newest: nat
    var cacheTime: nat
    var cacheVal: nat
    ghost var transfers: seq<Transfer>

    ghost predicate Valid()
      reads this, date, size
    {
      && date != size
      && Chronological(transfers)
      && Mirrors(date[..], size[..], newest, LogOf(transfers))
      && (cacheTime != 0 ==> cacheTime < UINT64 && cacheVal == Fresh(transfers, cacheTime))
    }

    constructor ()
      ensures Valid() && transfers == [] && fresh(date) && fresh(size)
    {
      date := new nat[HISTORY_SIZE](_ => 0);
      size := new nat[HISTORY_SIZE](_ => 0);
      newest, cacheTime, cacheVal := 0, 0, 0;
      transfers := [];
    }

    // notify_bandwidth_consumed_bytes()
    method Notify(now: nat, bytes: nat)
      requires Valid()
      requires forall i :: 0 <= i < |transfers| ==> transfers[i].at <= now
      modifies this, date, size
      ensures Valid()
      ensures transfers == old(transfers) + [Transfer(now, bytes)]
      ensures var log := LogOf(old(transfers));
              LogOf(transfers) == if Last(log).date + 250 >= now
                                  then log[|log| - 1 := Bucket(Last(log).date, Last(log).size + bytes)]
                                  else log + [Bucket(now, bytes)]
    {
      ghost var log := LogOf(transfers);
      Store(now, bytes, log);
      cacheTime := 0;
      Appended(transfers, Transfer(now, bytes));
      transfers := transfers + [Transfer(now, bytes)];
    }

    // Everything but the cache.
    method Store(now: nat, bytes: nat, ghost log: seq<Bucket>)
      requires date != size && log != [] && Mirrors(date[..], size[..], newest, log)
      modifies this`newest, date, size
      ensures Mirrors(date[..], size[..], newest, AddToLog(log, now, bytes))
    {
      ghost var d, s, n := date[..], size[..], newest;
      RingMerges(d, s, n, log, bytes);
      if date[newest] + GRANULARITY_MSEC >= now {
        size[newest] := size[newest] + bytes;
        assert date[..] == d && size[..] == s[n := s[n] + bytes];
      } else {
        RingAdvances(d, s, n, log, Bucket(now, bytes));
        newest := if newest + 1 == HISTORY_SIZE then 0 else newest + 1;
        date[newest] := now;
        size[newest] := bytes;
        assert date[..] == d[newest := now] && size[..] == s[newest := bytes];
      }
    }

    // get_speed(), where `clock` is what tr_time_msec() would say.
    method GetSpeed(queryTime: nat, clock: nat) returns (speed: nat)
      requires Valid()
      requires 0 < clock
      requires var now := if queryTime == 0 then clock else queryTime;
               Last(LogOf(transfers)).date <= now < UINT64
      modifies this`cacheTime, this`cacheVal
      ensures Valid()
      ensures speed == Fresh(transfers, if queryTime == 0 then clock else queryTime)
      ensures var now := if queryTime == 0 then clock else queryTime;
              if now < 2000 then speed == 0
              else
                && 2000 * speed <= 1000 * BytesAfter(LogOf(transfers), now - 2000) < 2000 * (speed + 1)
                && 2000 * speed <= 1000 * TransferredAfter(transfers, now - 2000)
                && 1000 * TransferredAfter(transfers, now - 1750) < 2000 * (speed + 1)
    {
      var now := if queryTime == 0 then clock else queryTime;
      if now != cacheTime {
        LogIsSpaced(transfers);
        var bytes := Walk(Cutoff(now), now, LogOf(transfers));
        cacheVal := Speed(bytes);
        cacheTime := now;
      }
      speed := cacheVal;
      ReadingIsSandwiched(transfers, now);
    }

    // The loop inside get_speed(): it equals a walk over the unbounded log,
    // because a bucket that has left the ring is at least 8 * 251 ms older than
    // the newest one.
    method Walk(cutoff: nat, ghost now: nat, ghost log: seq<Bucket>) returns (bytes: nat)
      requires Mirrors(date[..], size[..], newest, log)
      requires Spaced(log) && log != [] && Last(log).date <= now
      requires now < UINT64 && cutoff == Cutoff(now)
      ensures bytes == BytesAfter(log, cutoff)
    {
      ghost var d, s, k := date[..], size[..], 0;
      bytes := 0;
      var i: nat := newest;
      WalkStep(d, s, newest, log, 0, cutoff);
      while date[i] > cutoff
        invariant i < HISTORY_SIZE && Walked(d, s, newest, log, k, cutoff, i, bytes)
        decreases HISTORY_SIZE - k
      {
        WalkNext(d, s, newest, log, k, cutoff, i, bytes);
        bytes := bytes + size[i];
        k := k + 1;
        i := Before(i);
        if i == newest {
          break;
        }
      }
      RestIsOld(log, k, cutoff, now);
    }
  }

  // The buckets a walk has not reached are too old to count, either because the
  // next one is or because all 8 slots were read.
  lemma RestIsOld(log: seq<Bucket>, k: nat, cutoff: nat, now: nat)
    requires Spaced(log) && k <= |log| && now < UINT64 && cutoff == Cutoff(now)
    requires log != [] ==> Last(log).date <= now
    requires k == HISTORY_SIZE || k == |log| || log[|log| - 1 - k].date <= cutoff
    ensures BytesAfter(log, cutoff) == BytesOfNewest(log, k, cutoff)
  {
    forall i | 0 <= i < |log| - k
      ensures log[i].date <= cutoff
    {
      OneIsOld(log, i, k, cutoff, now);
    }
    BytesAfterDrop(log, |log| - k, cutoff);
  }

  lemma OneIsOld(log: seq<Bucket>, i: nat, k: nat, cutoff: nat, now: nat)
    requires Spaced(log) && i + k < |log| && now < UINT64 && cutoff == Cutoff(now)
    requires Last(log).date <= now
    requires k == HISTORY_SIZE || log[|log| - 1 - k].date <= cutoff
    ensures log[i].date <= cutoff
  {
    if k == HISTORY_SIZE {
      EvictedIsOld(log, i, |log| - 1);
    } else {
      SpacedAscends(log, i, |log| - 1 - k);
    }
  }

  // Main result for one meter: at any time not before the newest slot, the
  // reading, in bytes per second rounded down, is the log's bytes of the last
  // 2000 ms over 2 seconds. It counts every byte transferred in the last 1750 ms
  // and none older than 2000 ms. Before the clock reaches 2000 ms the unsigned
  // cutoff wraps around and the reading is 0.
  lemma ReadingIsSandwiched(transfers: seq<Transfer>, now: nat)
    requires Chronological(transfers) && Last(LogOf(transfers)).date <= now < UINT64
    ensures var speed := Fresh(transfers, now);
            if now < 2000 then speed == 0
            else
              && 2000 * speed <= 1000 * BytesAfter(LogOf(transfers), now - 2000) < 2000 * (speed + 1)
              && 2000 * speed <= 1000 * TransferredAfter(transfers, now - 2000)
              && 1000 * TransferredAfter(transfers, now - 1750) < 2000 * (speed + 1)
  {
    if now >= 2000 {
      BucketsSandwich(transfers, now - 2000);
    } else {
      var log := LogOf(transfers);
      LogIsSpaced(transfers);
      forall i | 0 <= i < |log|
        ensures log[i].date <= Cutoff(now)
      {
        SpacedAscends(log, i, |log| - 1);
      }
      BytesAfterNone(log, Cutoff(now));
    }
  }
}
