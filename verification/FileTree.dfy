// Refreshing the file view: a post-order walk with an explicit stack updates
// every row from its file or from its children's rows (gtk/FileList.cc).
module FileTree {

  const NOT_SET := 1000
  const MIXED := 1001

  // What the torrent says of a file; `progress` is in percent, truncated.
  datatype FileInfo = FileInfo(wanted: bool, priority: int, have: nat, length: nat, progress: int)

  // The columns refreshFilesForeach() maintains.
  datatype Cols = Cols(enabled: int, have: nat, priority: int, prog: int, size: nat)

  class Row {
    const index: nat
    var enabled: int
    var have: nat
    var priority: int
    var prog: int
    var size: nat

    constructor (index: nat)
      ensures this.index == index
    {
      this.index := index;
      enabled, have, priority, prog, size := 0, 0, 0, 0, 0;
    }

    function AsCols(): Cols
      reads this
    {
      Cols(enabled, have, priority, prog, size)
    }
  }

  // The shape of the tree store, which a refresh does not change.
  datatype Tree = Tree(row: Row, children: seq<Tree>)

  // ----- post-order

  function Postorder(ts: seq<Tree>): seq<Tree> {
    if ts == [] then [] else Postorder(ts[0].children) + [ts[0]] + Postorder(ts[1..])
  }

  // Children come before their parent.
  lemma {:induction false} ChildrenFirst(ts: seq<Tree>, k: nat)
    requires k < |Postorder(ts)|
    ensures forall c :: c in Postorder(ts)[k].children ==> c in Postorder(ts)[..k]
    decreases ts
  {
    var below, rest, all := Postorder(ts[0].children), Postorder(ts[1..]), Postorder(ts);
    if k < |below| {
      ChildrenFirst(ts[0].children, k);
      assert all[..k] == below[..k];
    } else if k == |below| {
      assert all[..k] == below;
      RootsListed(ts[0].children);
    } else {
      ChildrenFirst(ts[1..], k - |below| - 1);
      assert all[k] == rest[k - |below| - 1];
      assert all[..k] == below + [ts[0]] + rest[..k - |below| - 1];
    }
  }

  lemma {:induction false} RootsListed(ts: seq<Tree>)
    ensures forall t :: t in ts ==> t in Postorder(ts)
  {
    if ts != [] {
      RootsListed(ts[1..]);
      assert ts == [ts[0]] + ts[1..];
    }
  }

  // ----- what a row should show

  function Clamp(x: int, lo: int, hi: int): int {
    if x < lo then lo else if hi < x then hi else x
  }

  function LeafCols(f: FileInfo): Cols {
    Cols(if f.wanted then 1 else 0, f.have, f.priority, Clamp(f.progress, 0, 100), f.length)
  }

  function Blend(acc: int, value: int): int {
    if acc == NOT_SET then value else if acc != value then MIXED else acc
  }

  // One round of the loop over a folder's children; prog is not touched yet.
  function Counted(acc: Cols, kid: Cols): Cols {
    var counts := kid.enabled != 0 && kid.enabled != NOT_SET;
    Cols(Blend(acc.enabled, kid.enabled), acc.have + (if counts then kid.have else 0),
         Blend(acc.priority, kid.priority), 0, acc.size + if counts then kid.size else 0)
  }

  function Accumulate(kids: seq<Cols>): Cols {
    if kids == [] then Cols(NOT_SET, 0, NOT_SET, 0, 0)
    else
      Counted(Accumulate(kids[..|kids| - 1]), kids[|kids| - 1])
  }

  function Percent(have: nat, size: nat): int {
    Clamp(if size != 0 then 100 * have / size else 1, 0, 100)
  }

  function FolderCols(kids: seq<Cols>): Cols {
    var acc := Accumulate(kids);
    acc.(prog := Percent(acc.have, acc.size))
  }

  // What the row of t shows after a refresh.
  function Refreshed(files: nat -> FileInfo, t: Tree): Cols {
    if t.children == [] then LeafCols(files(t.row.index)) else FolderCols(RefreshedAll(files, t.children))
  }

  function RefreshedAll(files: nat -> FileInfo, ts: seq<Tree>): (r: seq<Cols>)
    ensures |r| == |ts| && forall i :: 0 <= i < |ts| ==> r[i] == Refreshed(files, ts[i])
  {
    if ts == [] then [] else RefreshedAll(files, ts[..|ts| - 1]) + [Refreshed(files, ts[|ts| - 1])]
  }

  // ----- the same, from the leaves

  function Leaves(files: nat -> FileInfo, ts: seq<Tree>): seq<FileInfo> {
    if ts == [] then [] else Leaves(files, ts[..|ts| - 1]) + LeavesOf(files, ts[|ts| - 1])
  }

  function LeavesOf(files: nat -> FileInfo, t: Tree): seq<FileInfo> {
    if t.children == [] then [files(t.row.index)] else Leaves(files, t.children)
  }

  function WantedSize(leaves: seq<FileInfo>): nat {
    if leaves == [] then 0
    else
      var last := leaves[|leaves| - 1];
      WantedSize(leaves[..|leaves| - 1]) + if last.wanted then last.length else 0
  }

  function WantedHave(leaves: seq<FileInfo>): nat {
    if leaves == [] then 0
    else
      var last := leaves[|leaves| - 1];
      WantedHave(leaves[..|leaves| - 1]) + if last.wanted then last.have else 0
  }

  // The value all the leaves share, MIXED if they do not, NOT_SET if there are
  // none.
  ghost predicate Shared(values: seq<int>, v: int) {
    if values == [] then v == NOT_SET
    else if forall i :: 0 <= i < |values| ==> values[i] == values[0] then v == values[0]
    else v == MIXED
  }

  function Enableds(leaves: seq<FileInfo>): seq<int> {
    seq(|leaves|, i requires 0 <= i < |leaves| => if leaves[i].wanted then 1 else 0)
  }

  function Priorities(leaves: seq<FileInfo>): seq<int> {
    seq(|leaves|, i requires 0 <= i < |leaves| => leaves[i].priority)
  }

  ghost predicate Sane(values: seq<int>) {
    forall i :: 0 <= i < |values| ==> values[i] != NOT_SET && values[i] != MIXED
  }

  ghost predicate SaneFiles(files: nat -> FileInfo) {
    forall i :: files(i).priority != NOT_SET && files(i).priority != MIXED
  }

  lemma BlendShared(a: seq<int>, va: int, b: seq<int>, vb: int)
    requires Sane(a) && Sane(b) && Shared(a, va) && Shared(b, vb) && b != []
    ensures Shared(a + b, Blend(va, vb))
  {
    var c := a + b;
    assert forall i :: 0 <= i < |b| ==> c[|a| + i] == b[i];
    assert forall i :: 0 <= i < |a| ==> c[i] == a[i];
    if a == [] {
      assert c == b;
    } else if forall i :: 0 <= i < |c| ==> c[i] == c[0] {
      assert b[0] == c[|a|];
    } else if va == a[0] && vb == b[0] {
      assert c[|a|] == b[0] && c[0] == a[0];
    }
  }

  lemma {:induction false} WantedSums(a: seq<FileInfo>, b: seq<FileInfo>)
    ensures WantedSize(a + b) == WantedSize(a) + WantedSize(b)
    ensures WantedHave(a + b) == WantedHave(a) + WantedHave(b)
  {
    if b == [] {
      assert a + b == a;
    } else {
      var init := b[..|b| - 1];
      assert (a + b)[..|a + b| - 1] == a + init;
      WantedSums(a, init);
    }
  }

  lemma {:induction false} UnwantedSums(leaves: seq<FileInfo>)
    requires forall i :: 0 <= i < |leaves| ==> !leaves[i].wanted
    ensures WantedSize(leaves) == 0 && WantedHave(leaves) == 0
  {
    if leaves != [] {
      UnwantedSums(leaves[..|leaves| - 1]);
    }
  }

  // Summing over immediate children, folders included, is summing over leaves.
  ghost predicate SumsLeaves(acc: Cols, leaves: seq<FileInfo>) {
    && acc.size == WantedSize(leaves) && acc.have == WantedHave(leaves)
    && Shared(Enableds(leaves), acc.enabled) && Shared(Priorities(leaves), acc.priority)
  }

  // What a folder's loop needs of a child's row.
  ghost predicate ShowsLeaves(kid: Cols, leaves: seq<FileInfo>) {
    && leaves != [] && Sane(Priorities(leaves))
    && Shared(Enableds(leaves), kid.enabled) && Shared(Priorities(leaves), kid.priority)
    && (kid.enabled != 0 ==> kid.size == WantedSize(leaves) && kid.have == WantedHave(leaves))
  }

  lemma SumsStep(acc: Cols, before: seq<FileInfo>, kid: Cols, leaves: seq<FileInfo>)
    requires SumsLeaves(acc, before) && Sane(Priorities(before)) && ShowsLeaves(kid, leaves)
    ensures SumsLeaves(Counted(acc, kid), before + leaves) && Sane(Priorities(before + leaves))
  {
    assert Enableds(before + leaves) == Enableds(before) + Enableds(leaves);
    assert Priorities(before + leaves) == Priorities(before) + Priorities(leaves);
    BlendShared(Enableds(before), acc.enabled, Enableds(leaves), kid.enabled);
    BlendShared(Priorities(before), acc.priority, Priorities(leaves), kid.priority);
    WantedSums(before, leaves);
    EnabledValues(leaves, kid.enabled);
    if kid.enabled == 0 {
      UnwantedSums(leaves);
    }
  }

  lemma EnabledValues(leaves: seq<FileInfo>, v: int)
    requires leaves != [] && Shared(Enableds(leaves), v)
    ensures v == 0 || v == 1 || v == MIXED
    ensures v == 0 ==> forall i :: 0 <= i < |leaves| ==> !leaves[i].wanted
    ensures v == 1 ==> forall i :: 0 <= i < |leaves| ==> leaves[i].wanted
  {
    var e := Enableds(leaves);
    assert forall i :: 0 <= i < |leaves| ==> e[i] == if leaves[i].wanted then 1 else 0;
  }

  lemma {:induction false} AccumulateIsSum(files: nat -> FileInfo, ts: seq<Tree>)
    requires SaneFiles(files)
    ensures Sane(Priorities(Leaves(files, ts))) && (ts != [] ==> Leaves(files, ts) != [])
    ensures SumsLeaves(Accumulate(RefreshedAll(files, ts)), Leaves(files, ts))
    decreases ts
  {
    if ts != [] {
      var init, last := ts[..|ts| - 1], ts[|ts| - 1];
      AccumulateIsSum(files, init);
      RowShowsLeaves(files, last);
      SumsStep(Accumulate(RefreshedAll(files, init)), Leaves(files, init), Refreshed(files, last),
               LeavesOf(files, last));
      assert RefreshedAll(files, ts)[..|ts| - 1] == RefreshedAll(files, init);
    }
  }

  lemma {:induction false} RowShowsLeaves(files: nat -> FileInfo, t: Tree)
    requires SaneFiles(files)
    ensures ShowsLeaves(Refreshed(files, t), LeavesOf(files, t))
    decreases t
  {
    if t.children == [] {
      OneLeaf(files(t.row.index));
    } else {
      AccumulateIsSum(files, t.children);
    }
  }

  lemma OneLeaf(f: FileInfo)
    requires f.priority != NOT_SET && f.priority != MIXED
    ensures Sane(Priorities([f])) && Shared(Enableds([f]), LeafCols(f).enabled) && Shared(Priorities([f]), f.priority)
    ensures f.wanted ==> WantedSize([f]) == f.length && WantedHave([f]) == f.have
  {
    assert [f][..0] == [];
  }

  // A file's row shows what the torrent says of it, wanted or not; progress stays
  // within 0 and 100.
  ghost predicate ShowsFile(cols: Cols, f: FileInfo) {
    && cols.enabled == (if f.wanted then 1 else 0) && cols.priority == f.priority
    && cols.have == f.have && cols.size == f.length
    && cols.prog == if f.progress < 0 then 0 else if f.progress > 100 then 100 else f.progress
  }

  // A folder shows the bytes of the wanted files below it, the value its files
  // share or 1001 exactly if they differ, and the percentage, rounded down.
  ghost predicate ShowsFolder(cols: Cols, leaves: seq<FileInfo>) {
    && cols.size == WantedSize(leaves) && cols.have == WantedHave(leaves)
    && (cols.enabled == 1001 <==> exists f, g :: f in leaves && g in leaves && f.wanted != g.wanted)
    && (cols.priority == 1001 <==> exists f, g :: f in leaves && g in leaves && f.priority != g.priority)
    && (cols.enabled != 1001 ==> forall f :: f in leaves ==> cols.enabled == if f.wanted then 1 else 0)
    && (cols.priority != 1001 ==> forall f :: f in leaves ==> cols.priority == f.priority)
    && IsPercentage(cols.prog, WantedHave(leaves), WantedSize(leaves))
  }

  predicate IsPercentage(prog: int, have: nat, size: nat) {
    if size == 0 then prog == 1
    else 0 <= prog <= 100 && prog * size <= 100 * have && (prog < 100 ==> 100 * have < (prog + 1) * size)
  }

  lemma PercentIsPercentage(have: nat, size: nat)
    ensures IsPercentage(Percent(have, size), have, size)
  {
    if size > 0 {
      var q := 100 * have / size;
      assert q * size <= 100 * have < (q + 1) * size;
      if q > 100 {
        assert 100 * size <= q * size;
      }
    }
  }

  // Main result for files.
  lemma FileMeaning(files: nat -> FileInfo, t: Tree)
    requires t.children == []
    ensures ShowsFile(Refreshed(files, t), files(t.row.index))
  {
  }

  // Main result for folders.
  lemma FolderMeaning(files: nat -> FileInfo, t: Tree)
    requires SaneFiles(files) && t.children != []
    ensures ShowsFolder(Refreshed(files, t), Leaves(files, t.children))
  {
    var leaves, cols := Leaves(files, t.children), Refreshed(files, t);
    AccumulateIsSum(files, t.children);
    SharedMeaning(Enableds(leaves), cols.enabled);
    SharedMeaning(Priorities(leaves), cols.priority);
    forall i | 0 <= i < |leaves|
      ensures leaves[i] in leaves && Enableds(leaves)[i] == (if leaves[i].wanted then 1 else 0)
      ensures Priorities(leaves)[i] == leaves[i].priority
    {
    }
    MixedMeaning(leaves, cols);
    PercentIsPercentage(WantedHave(leaves), WantedSize(leaves));
  }

  // What a refreshed row shows.
  ghost predicate ShowsTree(files: nat -> FileInfo, t: Tree, cols: Cols) {
    if t.children == [] then ShowsFile(cols, files(t.row.index))
    else SaneFiles(files) ==> ShowsFolder(cols, Leaves(files, t.children))
  }

  lemma RowMeaning(files: nat -> FileInfo, t: Tree)
    ensures ShowsTree(files, t, Refreshed(files, t))
  {
    if t.children == [] {
      FileMeaning(files, t);
    } else if SaneFiles(files) {
      FolderMeaning(files, t);
    }
  }

  lemma SharedMeaning(values: seq<int>, v: int)
    requires Shared(values, v) && values != [] && forall i :: 0 <= i < |values| ==> values[i] != MIXED
    ensures v != MIXED ==> forall i :: 0 <= i < |values| ==> values[i] == v
    ensures v == MIXED ==> exists i :: 0 <= i < |values| && values[i] != values[0]
  {
  }

  lemma MixedMeaning(leaves: seq<FileInfo>, cols: Cols)
    requires leaves != [] && Sane(Priorities(leaves))
    requires Shared(Enableds(leaves), cols.enabled) && Shared(Priorities(leaves), cols.priority)
    ensures cols.enabled == MIXED <==> exists f, g :: f in leaves && g in leaves && f.wanted != g.wanted
    ensures cols.priority == MIXED <==> exists f, g :: f in leaves && g in leaves && f.priority != g.priority
  {
    var e, p := Enableds(leaves), Priorities(leaves);
    SharedMeaning(e, cols.enabled);
    SharedMeaning(p, cols.priority);
    if cols.enabled == MIXED {
      var i :| 0 <= i < |e| && e[i] != e[0];
      assert leaves[i] in leaves && leaves[0] in leaves && leaves[i].wanted != leaves[0].wanted;
    }
    if cols.priority == MIXED {
      var i :| 0 <= i < |p| && p[i] != p[0];
      assert leaves[i] in leaves && leaves[0] in leaves && leaves[i].priority != leaves[0].priority;
    }
    forall f | f in leaves
      ensures cols.enabled != MIXED ==> cols.enabled == if f.wanted then 1 else 0
      ensures cols.priority != MIXED ==> cols.priority == f.priority
    {
      var i :| 0 <= i < |leaves| && leaves[i] == f;
      assert e[i] == (if f.wanted then 1 else 0) && p[i] == f.priority;
    }
  }

  // ----- one row

  ghost function RowsOf(ts: seq<Tree>): set<Row> {
    set t | t in ts :: t.row
  }

  ghost function ColsOf(ts: seq<Tree>): (r: seq<Cols>)
    reads RowsOf(ts)
    ensures |r| == |ts| && forall i :: 0 <= i < |ts| ==> r[i] == ts[i].row.AsCols()
  {
    if ts == [] then [] else
      assert RowsOf(ts[..|ts| - 1]) <= RowsOf(ts);
      assert ts[|ts| - 1] in ts;
      ColsOf(ts[..|ts| - 1]) + [ts[|ts| - 1].row.AsCols()]
  }

  // refreshFilesForeach()
  method RefreshRow(files: nat -> FileInfo, t: Tree)
    requires t.row !in RowsOf(t.children)
    modifies t.row
    ensures t.row.AsCols()
         == if t.children == [] then LeafCols(files(t.row.index)) else FolderCols(old(ColsOf(t.children)))
  {
    var newEnabled, newPriority, newProgress := 0, 0, 0;
    var newHave: nat, newSize: nat := 0, 0;
    if t.children == [] {
      var file := files(t.row.index);
      newEnabled := if file.wanted then 1 else 0;
      newPriority := file.priority;
      newHave := file.have;
      newSize := file.length;
      newProgress := file.progress;
    } else {
      newEnabled, newHave, newPriority, newSize := SumChildren(t);
      newProgress := if newSize != 0 then 100 * newHave / newSize else 1;
    }
    newProgress := Clamp(newProgress, 0, 100);
    if newEnabled != t.row.enabled {
      t.row.enabled := newEnabled;
    }
    if newPriority != t.row.priority {
      t.row.priority := newPriority;
    }
    if newSize != t.row.size {
      t.row.size := newSize;
    }
    if newHave != t.row.have {
      t.row.have := newHave;
    }
    if newProgress != t.row.prog {
      t.row.prog := newProgress;
    }
  }

  // The part of refreshFilesForeach() that looks at the children.
  method SumChildren(t: Tree) returns (newEnabled: int, newHave: nat, newPriority: int, newSize: nat)
    ensures Cols(newEnabled, newHave, newPriority, 0, newSize) == Accumulate(ColsOf(t.children))
  {
    newEnabled, newPriority := NOT_SET, NOT_SET;
    newHave, newSize := 0, 0;
    ghost var kids := ColsOf(t.children);
    for i := 0 to |t.children|
      invariant Cols(newEnabled, newHave, newPriority, 0, newSize) == Accumulate(kids[..i])
    {
      assert kids[..i + 1][..i] == kids[..i];
      var child := t.children[i].row;
      if child.enabled != 0 && child.enabled != NOT_SET {
        newSize := newSize + child.size;
        newHave := newHave + child.have;
      }
      if newEnabled == NOT_SET {
        newEnabled := child.enabled;
      } else if newEnabled != child.enabled {
        newEnabled := MIXED;
      }
      if newPriority == NOT_SET {
        newPriority := child.priority;
      } else if newPriority != child.priority {
        newPriority := MIXED;
      }
    }
    assert kids[..|kids|] == kids;
  }

  // ----- the walk

  // A Gtk::TreeModel::iterator: a position among siblings, past the end when it
  // tests false.
  datatype Iter = Iter(siblings: seq<Tree>, pos: nat)

  ghost predicate Open(frames: seq<Iter>) {
    forall i :: 0 <= i < |frames| ==> frames[i].pos < |frames[i].siblings|
  }

  // The rows still to come once the frames above are done: each open row, then
  // its later siblings.
  ghost function Below(frames: seq<Iter>): seq<Tree>
    requires Open(frames)
  {
    if frames == [] then []
    else
      var f := frames[|frames| - 1];
      [f.siblings[f.pos]] + Postorder(f.siblings[f.pos + 1..]) + Below(frames[..|frames| - 1])
  }

  // The rows still to come from the iterator on top.
  function TopRows(f: Iter): seq<Tree>
    requires f.pos <= |f.siblings|
  {
    Postorder(f.siblings[f.pos..])
  }

  lemma TopRowsNext(f: Iter)
    requires f.pos < |f.siblings|
    ensures TopRows(f) == Postorder(f.siblings[f.pos].children) + [f.siblings[f.pos]] + TopRows(f.(pos := f.pos + 1))
    ensures TopRows(Iter(f.siblings[f.pos].children, 0)) == Postorder(f.siblings[f.pos].children)
  {
    var left, kids := f.siblings[f.pos..], f.siblings[f.pos].children;
    assert left[0] == f.siblings[f.pos] && left[1..] == f.siblings[f.pos + 1..];
    assert kids[0..] == kids;
  }

  // Going down changes nothing about what remains.
  lemma PushKeeps(under: seq<Iter>, top: Iter)
    requires Open(under) && top.pos < |top.siblings|
    ensures var t := top.siblings[top.pos];
            && Open(under + [top])
            && TopRows(Iter(t.children, 0)) + Below(under + [top]) == TopRows(top) + Below(under)
            && |TopRows(Iter(t.children, 0))| < |TopRows(top)|
  {
    TopRowsNext(top);
    var t := top.siblings[top.pos];
    assert (under + [top])[..|under|] == under;
    assert Below(under + [top]) == [t] + TopRows(top.(pos := top.pos + 1)) + Below(under);
    assert Postorder(t.children) + ([t] + TopRows(top.(pos := top.pos + 1)) + Below(under))
        == (Postorder(t.children) + [t] + TopRows(top.(pos := top.pos + 1))) + Below(under);
  }

  // Stepping past a row without children.
  lemma LeafNext(under: seq<Iter>, top: Iter)
    requires Open(under) && top.pos < |top.siblings| && top.siblings[top.pos].children == []
    ensures TopRows(top) + Below(under) == [top.siblings[top.pos]] + (TopRows(top.(pos := top.pos + 1)) + Below(under))
  {
    TopRowsNext(top);
    var t, rest := top.siblings[top.pos], TopRows(top.(pos := top.pos + 1));
    assert Postorder(t.children) == [];
    assert TopRows(top) == [t] + rest;
  }

  // Stepping past the row whose children are done.
  lemma FolderNext(under: seq<Iter>)
    requires under != [] && Open(under)
    ensures var f, rest := under[|under| - 1], under[..|under| - 1];
            Open(rest) && Below(under) == [f.siblings[f.pos]] + (TopRows(f.(pos := f.pos + 1)) + Below(rest))
  {
    var f, rest := under[|under| - 1], under[..|under| - 1];
    assert [f.siblings[f.pos]] + TopRows(f.(pos := f.pos + 1)) + Below(rest)
        == [f.siblings[f.pos]] + (TopRows(f.(pos := f.pos + 1)) + Below(rest));
  }

  ghost predicate DistinctRows(all: seq<Tree>) {
    forall i, j :: 0 <= i < j < |all| ==> all[i].row != all[j].row
  }

  ghost predicate Done(files: nat -> FileInfo, ts: seq<Tree>)
    reads RowsOf(ts)
  {
    forall t :: t in ts ==> t.row.AsCols() == Refreshed(files, t)
  }

  // The rows come children first, each once.
  ghost predicate ChildrenLead(all: seq<Tree>) {
    DistinctRows(all) && forall k :: 0 <= k < |all| ==> LedBy(all[..k], all[k])
  }

  ghost predicate LedBy(before: seq<Tree>, t: Tree) {
    forall c :: c in t.children ==> c in before
  }

  // The next row in post-order, refreshed when everything before it is.
  method Visit(files: nat -> FileInfo, t: Tree, ghost all: seq<Tree>, ghost visited: seq<Tree>)
    requires ChildrenLead(all) && visited + [t] <= all && Done(files, visited)
    modifies t.row
    ensures Done(files, visited + [t])
  {
    ghost var k := |visited|;
    assert all[k] == (visited + [t])[k] && all[..k] == visited;
    assert LedBy(all[..k], all[k]);
    forall s | s in visited
      ensures s.row != t.row
    {
      var i :| 0 <= i < k && all[i] == s;
    }
    assert ColsOf(t.children) == RefreshedAll(files, t.children);
    RefreshRow(files, t);
  }

  ghost predicate Walking(items: seq<Iter>) {
    items != [] ==> Open(items[..|items| - 1]) && items[|items| - 1].pos <= |items[|items| - 1].siblings|
  }

  ghost function Remaining(items: seq<Iter>): seq<Tree>
    requires Walking(items)
  {
    if items == [] then [] else TopRows(items[|items| - 1]) + Below(items[..|items| - 1])
  }

  // The two steps of the inner loop.
  lemma GoneDown(items: seq<Iter>)
    requires items != [] && Walking(items)
    requires var top := items[|items| - 1]; top.pos < |top.siblings|
    ensures var top := items[|items| - 1];
            var down := items + [Iter(top.siblings[top.pos].children, 0)];
            Walking(down) && Remaining(down) == Remaining(items) && |TopRows(down[|down| - 1])| < |TopRows(top)|
  {
    var under, top := items[..|items| - 1], items[|items| - 1];
    assert items == under + [top];
    PushKeeps(under, top);
    var down := items + [Iter(top.siblings[top.pos].children, 0)];
    assert down[..|down| - 1] == items;
  }

  lemma Passed(items: seq<Iter>)
    requires items != [] && Walking(items)
    requires var top := items[|items| - 1]; top.pos < |top.siblings| && top.siblings[top.pos].children == []
    ensures var top := items[|items| - 1];
            var next := items[|items| - 1 := top.(pos := top.pos + 1)];
            Walking(next) && Remaining(items) == [top.siblings[top.pos]] + Remaining(next)
  {
    var under, top := items[..|items| - 1], items[|items| - 1];
    LeafNext(under, top);
    var next := items[|items| - 1 := top.(pos := top.pos + 1)];
    assert next[..|next| - 1] == under;
  }

  // gtr_tree_model_foreach_postorder() with refreshFilesForeach(): the walk ends,
  // visits every row once, children before parents, and leaves every row as it
  // should be.
  method Refresh(files: nat -> FileInfo, roots: seq<Tree>) returns (ghost visited: seq<Tree>)
    requires DistinctRows(Postorder(roots))
    modifies RowsOf(Postorder(roots))
    ensures visited == Postorder(roots)
    ensures forall t :: t in Postorder(roots) ==>
              t.row.AsCols() == Refreshed(files, t) && ShowsTree(files, t, t.row.AsCols())
  {
    ghost var all := Postorder(roots);
    forall k | 0 <= k < |all|
      ensures LedBy(all[..k], all[k])
    {
      ChildrenFirst(roots, k);
    }
    visited := [];
    var items: seq<Iter> := [];
    if roots != [] {
      items := [Iter(roots, 0)];
    }
    StartRemains(roots);
    while items != []
      invariant Walking(items) && visited + Remaining(items) == all && Done(files, visited)
      decreases |Remaining(items)|, |items|
    {
      visited, items := WalkDown(files, items, all, visited);
      items := items[..|items| - 1];
      if items != [] {
        visited, items := StepOver(files, items, all, visited);
      }
    }
    forall t | t in Postorder(roots)
      ensures ShowsTree(files, t, Refreshed(files, t))
    {
      RowMeaning(files, t);
    }
  }

  lemma StartRemains(roots: seq<Tree>)
    ensures var items := if roots == [] then [] else [Iter(roots, 0)];
            Walking(items) && [] + Remaining(items) == Postorder(roots)
  {
    assert roots[0..] == roots;
    if roots != [] {
      assert [Iter(roots, 0)][..0] == [];
      assert TopRows(Iter(roots, 0)) + [] == Postorder(roots);
    }
  }

  lemma FolderPassed(under: seq<Iter>)
    requires under != [] && Open(under)
    ensures var f := under[|under| - 1];
            var next := under[|under| - 1 := f.(pos := f.pos + 1)];
            Walking(next) && Below(under) == [f.siblings[f.pos]] + Remaining(next)
  {
    FolderNext(under);
    var f := under[|under| - 1];
    var next := under[|under| - 1 := f.(pos := f.pos + 1)];
    assert next[..|next| - 1] == under[..|under| - 1];
  }

  // Visits the open row on top, whose children are done, and steps past it.
  method StepOver(files: nat -> FileInfo, under: seq<Iter>, ghost all: seq<Tree>, ghost been: seq<Tree>)
    returns (ghost visited: seq<Tree>, items: seq<Iter>)
    requires ChildrenLead(all) && Done(files, been)
    requires under != [] && Open(under) && been + Below(under) == all
    modifies RowsOf(all)
    ensures Walking(items) && visited + Remaining(items) == all && Done(files, visited)
    ensures |Remaining(items)| == |Below(under)| - 1
  {
    FolderPassed(under);
    var f := under[|under| - 1];
    items := under[|under| - 1 := f.(pos := f.pos + 1)];
    VisitNext(files, f.siblings[f.pos], all, been, Remaining(items));
    visited := been + [f.siblings[f.pos]];
  }

  // The inner loop: down to first children, visiting rows without any, until the
  // iterator on top has passed its last sibling.
  method WalkDown(files: nat -> FileInfo, start: seq<Iter>, ghost all: seq<Tree>, ghost been: seq<Tree>)
    returns (ghost visited: seq<Tree>, items: seq<Iter>)
    requires ChildrenLead(all) && Done(files, been)
    requires start != [] && Walking(start) && been + Remaining(start) == all
    modifies RowsOf(all)
    ensures items != [] && Walking(items) && visited + Remaining(items) == all && Done(files, visited)
    ensures items[|items| - 1].pos == |items[|items| - 1].siblings| && Remaining(items) == Below(items[..|items| - 1])
    ensures |Remaining(items)| <= |Remaining(start)|
  {
    visited, items := been, start;
    while items[|items| - 1].pos < |items[|items| - 1].siblings|
      invariant items != [] && Walking(items) && visited + Remaining(items) == all && Done(files, visited)
      invariant |Remaining(items)| <= |Remaining(start)|
      decreases |Remaining(items)|, |TopRows(items[|items| - 1])|
    {
      var top := items[|items| - 1];
      var t := top.siblings[top.pos];
      if t.children != [] {
        GoneDown(items);
        items := items + [Iter(t.children, 0)];
      } else {
        Passed(items);
        items := items[|items| - 1 := top.(pos := top.pos + 1)];
        VisitNext(files, t, all, visited, Remaining(items));
        visited := visited + [t];
      }
    }
    assert TopRows(items[|items| - 1]) == [];
  }

  method VisitNext(files: nat -> FileInfo, t: Tree, ghost all: seq<Tree>, ghost visited: seq<Tree>,
                   ghost rest: seq<Tree>)
    requires ChildrenLead(all) && Done(files, visited) && visited + ([t] + rest) == all
    modifies RowsOf(all)
    ensures Done(files, visited + [t]) && visited + [t] + rest == all
  {
    NextIn(t, all, visited, rest);
    Visit(files, t, all, visited);
  }

  lemma NextIn(t: Tree, all: seq<Tree>, visited: seq<Tree>, rest: seq<Tree>)
    requires visited + ([t] + rest) == all
    ensures visited + [t] + rest == all && visited + [t] <= all && t.row in RowsOf(all)
  {
    assert all[|visited|] == t;
  }
}
