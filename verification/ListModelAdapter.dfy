// The tree-model adapter over a list model: a vector of item ids, an index from
// ids to positions kept up to date under splices, and the row signals
// (gtk/ListModelAdapter.cc).
module ListModelAdapter {
  import opened Options

  predicate Differ(items: seq<int>, i: nat, j: nat)
    requires i < j < |items|
  {
    items[i] != items[j]
  }

  ghost predicate DistinctIds(items: seq<int>) {
    forall i, j :: 0 <= i < j < |items| ==> Differ(items, i, j)
  }

  // An id is at one position only.
  lemma OnePosition(items: seq<int>, i: nat, j: nat)
    requires DistinctIds(items) && i < |items| && j < |items| && i != j
    ensures items[i] != items[j]
  {
    assert if i < j then Differ(items, i, j) else Differ(items, j, i);
  }

  // The index maps each id exactly to its position.
  ghost predicate Indexes(positions: map<int, nat>, items: seq<int>) {
    && (forall i :: 0 <= i < |items| ==> items[i] in positions && positions[items[i]] == i)
    && (forall id :: id in positions ==> id in items)
  }

  function RemoveAt(items: seq<int>, i: nat): seq<int>
    requires i < |items|
  {
    items[..i] + items[i + 1..]
  }

  function InsertAt(items: seq<int>, i: nat, id: int): seq<int>
    requires i <= |items|
  {
    items[..i] + [id] + items[i..]
  }

  // ----- row signals

  datatype RowEvent = RowDeleted(path: nat) | RowInserted(path: nat, id: int)

  // What a view that obeys the signals makes of its rows; None if a signal
  // names a row that is not there.
  function Replay(rows: Option<seq<int>>, events: seq<RowEvent>): Option<seq<int>> {
    if events == [] then rows
    else
      var before := Replay(rows, events[..|events| - 1]);
      if before == None then None
      else
        match events[|events| - 1]
        case RowDeleted(path) => if path < |before.value| then Some(RemoveAt(before.value, path)) else None
        case RowInserted(path, id) => if path <= |before.value| then Some(InsertAt(before.value, path, id)) else None
  }

  lemma {:induction false} ReplayConcat(rows: Option<seq<int>>, a: seq<RowEvent>, b: seq<RowEvent>)
    ensures Replay(rows, a + b) == Replay(Replay(rows, a), b)
  {
    if b == [] {
      assert a + b == a;
    } else {
      assert (a + b)[..|a + b| - 1] == a + b[..|b| - 1];
      ReplayConcat(rows, a, b[..|b| - 1]);
    }
  }

  // Where the entries are after one removal or insertion.
  lemma RemoveShifts(items: seq<int>, r: nat)
    requires DistinctIds(items) && r < |items|
    ensures var after := RemoveAt(items, r);
            && DistinctIds(after) && items[r] !in after
            && forall i :: 0 <= i < |after| ==> after[i] == items[if i < r then i else i + 1]
    ensures forall id :: id in items && id != items[r] ==> id in RemoveAt(items, r)
  {
    var after := RemoveAt(items, r);
    forall i | 0 <= i < |after|
      ensures after[i] == items[if i < r then i else i + 1] && after[i] != items[r]
    {
      OnePosition(items, if i < r then i else i + 1, r);
    }
    forall i, j | 0 <= i < j < |after|
      ensures Differ(after, i, j)
    {
      OnePosition(items, if i < r then i else i + 1, if j < r then j else j + 1);
    }
    forall id | id in items && id != items[r]
      ensures id in after
    {
      var i :| 0 <= i < |items| && items[i] == id;
      assert after[if i < r then i else i - 1] == id;
    }
  }

  lemma InsertShifts(items: seq<int>, a: nat, id: int)
    requires DistinctIds(items) && a <= |items| && id !in items
    ensures var after := InsertAt(items, a, id);
            && DistinctIds(after) && after[a] == id
            && (forall i :: 0 <= i < |after| && i != a ==> after[i] == items[if i < a then i else i - 1])
    ensures forall k :: k in items ==> k in InsertAt(items, a, id)
  {
    var after := InsertAt(items, a, id);
    forall i | 0 <= i < |after| && i != a
      ensures after[i] == items[if i < a then i else i - 1] && after[i] != id
    {
    }
    forall i, j | 0 <= i < j < |after|
      ensures Differ(after, i, j)
    {
      if i != a && j != a {
        OnePosition(items, if i < a then i else i - 1, if j < a then j else j - 1);
      }
    }
    forall k | k in items
      ensures k in after
    {
      var i :| 0 <= i < |items| && items[i] == k;
      assert after[if i < a then i else i + 1] == k;
    }
  }

  // adjust_item_positions() as a relation.
  ghost predicate Adjusted(was: map<int, nat>, positions: map<int, nat>, moved: seq<int>, adjustment: int) {
    && positions.Keys == was.Keys
    && forall id :: id in positions ==> positions[id] == was[id] + if id in moved then adjustment else 0
  }

  lemma RemoveIndexes(index: map<int, nat>, items: seq<int>, r: nat, positions: map<int, nat>)
    requires DistinctIds(items) && Indexes(index, items) && r < |items|
    requires Adjusted(index - {items[r]}, positions, RemoveAt(items, r)[r..], -1)
    ensures Indexes(positions, RemoveAt(items, r))
  {
    var after := RemoveAt(items, r);
    RemoveShifts(items, r);
    forall i | 0 <= i < |after|
      ensures after[i] in positions && positions[after[i]] == i
    {
      if i < r {
        assert after[i] !in after[r..];
      } else {
        assert after[i] == after[r..][i - r];
      }
    }
  }

  lemma InsertIndexes(index: map<int, nat>, items: seq<int>, a: nat, id: int, positions: map<int, nat>)
    requires DistinctIds(items) && Indexes(index, items) && a <= |items| && id !in items
    requires Adjusted(index, positions, InsertAt(items, a, id)[a..], 1)
    ensures id !in positions && Indexes(positions[id := a], InsertAt(items, a, id))
  {
    var after := InsertAt(items, a, id);
    InsertShifts(items, a, id);
    forall i | 0 <= i < |after| && i != a
      ensures after[i] in positions && after[i] != id && positions[after[i]] == i
    {
      if i < a {
        assert after[i] !in after[a..];
      } else {
        assert after[i] == after[a..][i - a];
      }
    }
  }

  // The signals of a splice: its old rows go, last one first, and its new rows
  // come, first one first.
  function Deletions(position: nat, removed: nat, k: nat): (r: seq<RowEvent>)
    requires k <= removed
    ensures |r| == k && forall i :: 0 <= i < k ==> r[i] == RowDeleted(position + removed - 1 - i)
  {
    seq(k, i requires 0 <= i < k => RowDeleted(position + removed - 1 - i))
  }

  function Insertions(adaptee: seq<int>, position: nat, k: nat): (r: seq<RowEvent>)
    requires position + k <= |adaptee|
    ensures |r| == k && forall i :: 0 <= i < k ==> r[i] == RowInserted(position + i, adaptee[position + i])
  {
    seq(k, i requires 0 <= i < k => RowInserted(position + i, adaptee[position + i]))
  }

  // ----- the adapter

  class Adapter {
    var items: seq<int>
    var positions: map<int, nat>
    ghost var events: seq<RowEvent>

    ghost predicate Valid()
      reads this
    {
      DistinctIds(items) && Indexes(positions, items) && Replay(Some([]), events) == Some(items)
    }

    // `adaptee` lists the ids of the list model's items.
    constructor (adaptee: seq<int>)
      requires DistinctIds(adaptee)
      ensures Valid() && items == adaptee
    {
      items, positions, events := [], map[], [];
      new;
      OnItemsChanged(adaptee, 0, 0, |adaptee|);
    }

    function FindPosition(id: int): Option<nat>
      reads this
    {
      if id in positions then Some(positions[id]) else None
    }

    // adjust_item_positions(): every known id from position `min` on.
    method AdjustPositions(min: nat, adjustment: int)
      requires DistinctIds(items) && min <= |items| && (adjustment == 1 || adjustment == -1)
      requires forall i :: min <= i < |items| && items[i] in positions ==> positions[items[i]] + adjustment >= 0
      modifies this`positions
      ensures Adjusted(old(positions), positions, items[min..], adjustment)
    {
      for k := min to |items|
        invariant Adjusted(old(positions), positions, items[min..k], adjustment)
      {
        var id := items[k];
        assert items[min..k + 1] == items[min..k] + [id];
        forall i | min <= i < k
          ensures items[i] != id
        {
          OnePosition(items, i, k);
        }
        if id in positions {
          positions := positions[id := positions[id] + adjustment];
        }
      }
      assert items[min..|items|] == items[min..];
    }

    method RemoveOne(r: nat)
      requires Valid() && r < |items|
      modifies this
      ensures Valid() && items == RemoveAt(old(items), r) && events == old(events) + [RowDeleted(r)]
    {
      var id := items[r];
      ghost var was, index := items, positions;
      RemoveShifts(items, r);
      items := items[..r] + items[r + 1..];
      positions := positions - {id};
      AdjustPositions(r, -1);
      RemoveIndexes(index, was, r, positions);
      events := events + [RowDeleted(r)];
      assert events[..|events| - 1] == old(events);
    }

    method InsertOne(a: nat, id: int)
      requires Valid() && a <= |items| && id !in items
      modifies this
      ensures Valid() && items == InsertAt(old(items), a, id) && events == old(events) + [RowInserted(a, id)]
    {
      ghost var was, index := items, positions;
      InsertShifts(items, a, id);
      items := items[..a] + [id] + items[a..];
      AdjustPositions(a, 1);
      InsertIndexes(index, was, a, id, positions);
      if id !in positions {
        positions := positions[id := a];
      }
      events := events + [RowInserted(a, id)];
      assert events[..|events| - 1] == old(events);
    }

    // The first loop of on_adaptee_items_changed(), last row first.
    method RemoveRows(position: nat, removed: nat)
      requires Valid() && position + removed <= |items|
      modifies this
      ensures Valid() && items == old(items[..position] + items[position + removed..])
      ensures events == old(events) + Deletions(position, removed, removed)
    {
      ghost var was, tail := items, items[position + removed..];
      assert was == was[..position + removed] + tail;
      for i := 0 to removed
        invariant Valid() && items == was[..position + removed - i] + tail
        invariant events == old(events) + Deletions(position, removed, i)
      {
        CutOne(was, position + removed - i, tail);
        RemoveOne(position + removed - i - 1);
      }
    }

    method InsertRows(adaptee: seq<int>, position: nat, added: nat)
      requires Valid() && DistinctIds(adaptee) && position + added <= |adaptee|
      requires items == adaptee[..position] + adaptee[position + added..]
      modifies this
      ensures Valid() && items == adaptee && events == old(events) + Insertions(adaptee, position, added)
    {
      ghost var tail := adaptee[position + added..];
      for i := 0 to added
        invariant Valid() && items == adaptee[..position + i] + tail
        invariant events == old(events) + Insertions(adaptee, position, i)
      {
        AddOne(adaptee, position + i, position + added, tail);
        InsertOne(position + i, adaptee[position + i]);
      }
      assert adaptee == adaptee[..position + added] + tail;
    }

    // on_adaptee_items_changed(): `adaptee` is the list model after the splice.
    method OnItemsChanged(adaptee: seq<int>, position: nat, removed: nat, added: nat)
      requires Valid() && DistinctIds(adaptee)
      requires position + removed <= |items| && position + added <= |adaptee|
      requires adaptee == items[..position] + adaptee[position..position + added] + items[position + removed..]
      modifies this
      ensures Valid() && items == adaptee
      ensures events == old(events) + Deletions(position, removed, removed) + Insertions(adaptee, position, added)
      ensures Replay(Some(old(items)), events[|old(events)|..]) == Some(items)
    {
      SpliceEnds(items, adaptee, position, removed, added);
      RemoveRows(position, removed);
      InsertRows(adaptee, position, added);
      assert events == old(events) + events[|old(events)|..];
      ReplayConcat(Some([]), old(events), events[|old(events)|..]);
    }

    // iter_children_vfunc() of the invisible root, and iter_next_vfunc()
    function FirstChild(): Option<int>
      reads this
    {
      if items == [] then None else Some(items[0])
    }

    function IterNext(id: int): Option<int>
      reads this
    {
      var position := FindPosition(id);
      if position.Some? && position.value + 1 < |items| then Some(items[position.value + 1]) else None
    }

    // The iterator after k steps from the first child.
    function NthIter(k: nat): Option<int>
      reads this
    {
      if k == 0 then FirstChild()
      else
        var it := NthIter(k - 1);
        if it == None then None else IterNext(it.value)
    }

    // Main result: first child and next enumerate the items in order and stop.
    lemma {:induction false} EnumeratesItems(k: nat)
      requires Valid()
      ensures NthIter(k) == if k < |items| then Some(items[k]) else None
    {
      if k > 0 {
        EnumeratesItems(k - 1);
      }
    }
  }

  lemma SpliceEnds(was: seq<int>, adaptee: seq<int>, position: nat, removed: nat, added: nat)
    requires position + removed <= |was| && position + added <= |adaptee|
    requires adaptee == was[..position] + adaptee[position..position + added] + was[position + removed..]
    ensures adaptee[..position] == was[..position] && adaptee[position + added..] == was[position + removed..]
  {
  }

  lemma CutOne(was: seq<int>, end: nat, tail: seq<int>)
    requires 0 < end <= |was|
    ensures RemoveAt(was[..end] + tail, end - 1) == was[..end - 1] + tail
  {
  }

  lemma AddOne(adaptee: seq<int>, k: nat, end: nat, tail: seq<int>)
    requires DistinctIds(adaptee) && k < end <= |adaptee| && tail == adaptee[end..]
    ensures adaptee[k] !in adaptee[..k] + tail
    ensures InsertAt(adaptee[..k] + tail, k, adaptee[k]) == adaptee[..k + 1] + tail
  {
    forall i | 0 <= i < |tail|
      ensures tail[i] != adaptee[k]
    {
      OnePosition(adaptee, end + i, k);
    }
    forall i | 0 <= i < k
      ensures adaptee[i] != adaptee[k]
    {
      OnePosition(adaptee, i, k);
    }
  }
}
