// The tracker filter's rows: tallying torrents per site and merging the sorted
// tally into the rows on show (gtk/FilterBar.cc).
module SiteMerge {
  import opened Options
  import opened Text

  // What the filter reads of one tracker of a torrent.
  datatype TrackerView = TrackerView(sitename: string, hostAndPort: string, announce: string)

  // A torrent's trackers; None where the model holds no torrent.
  type Torrent = Option<seq<TrackerView>>

  datatype SiteInfo = SiteInfo(count: nat, host: string, sitename: string, announceUrl: string)

  // ----- the tally

  predicate HasSite(views: seq<TrackerView>, site: string) {
    exists i :: 0 <= i < |views| && views[i].sitename == site
  }

  // How many torrents have at least one tracker of the site.
  ghost function TorrentsWith(torrents: seq<Torrent>, site: string): nat {
    if torrents == [] then 0
    else
      var last := torrents[|torrents| - 1];
      TorrentsWith(torrents[..|torrents| - 1], site) + if last.Some? && HasSite(last.value, site) then 1 else 0
  }

  ghost function TorrentCount(torrents: seq<Torrent>): nat {
    if torrents == [] then 0
    else TorrentCount(torrents[..|torrents| - 1]) + if torrents[|torrents| - 1].Some? then 1 else 0
  }

  // The host and announce URL of a torrent's first tracker of the site.
  ghost function FirstOf(views: seq<TrackerView>, site: string): (string, string)
    requires HasSite(views, site)
  {
    if views[0].sitename == site then (views[0].hostAndPort, views[0].announce)
    else
      assert exists i :: 0 <= i < |views[1..]| && views[1..][i].sitename == site by {
        var i :| 0 <= i < |views| && views[i].sitename == site;
        assert views[1..][i - 1] == views[i];
      }
      FirstOf(views[1..], site)
  }

  // Those of the last torrent that has the site.
  ghost function LastOf(torrents: seq<Torrent>, site: string): (string, string)
    requires TorrentsWith(torrents, site) > 0
  {
    var last := torrents[|torrents| - 1];
    if last.Some? && HasSite(last.value, site) then FirstOf(last.value, site)
    else LastOf(torrents[..|torrents| - 1], site)
  }

  ghost predicate TalliedAt(infos: map<string, SiteInfo>, torrents: seq<Torrent>, site: string) {
    if site in infos then
      && infos[site].sitename == site && infos[site].count == TorrentsWith(torrents, site) > 0
      && (infos[site].host, infos[site].announceUrl) == LastOf(torrents, site)
    else TorrentsWith(torrents, site) == 0
  }

  ghost predicate Tallied(infos: map<string, SiteInfo>, torrents: seq<Torrent>) {
    forall site :: TalliedAt(infos, torrents, site)
  }

  // The sites of one torrent, each with its first tracker.
  method SitesOf(views: seq<TrackerView>) returns (sites: map<string, (string, string)>)
    ensures forall site :: FirstAt(sites, views, site)
  {
    sites := map[];
    for j := 0 to |views|
      invariant forall site :: FirstAt(sites, views[..j], site)
    {
      var view := views[j];
      ghost var before, seen := sites, views[..j + 1];
      assert seen == views[..j] + [view];
      if view.sitename !in sites {
        sites := sites[view.sitename := (view.hostAndPort, view.announce)];
      }
      forall site
        ensures FirstAt(sites, seen, site)
      {
        assert FirstAt(before, views[..j], site) && FirstAt(before, views[..j], view.sitename);
        HasSiteSnoc(views[..j], view, site);
      }
    }
    assert views[..|views|] == views;
  }

  ghost predicate FirstAt(sites: map<string, (string, string)>, views: seq<TrackerView>, site: string) {
    && (site in sites <==> HasSite(views, site))
    && (site in sites ==> sites[site] == FirstOf(views, site))
  }

  lemma HasSiteSnoc(views: seq<TrackerView>, view: TrackerView, site: string)
    ensures HasSite(views + [view], site) <==> HasSite(views, site) || site == view.sitename
    ensures HasSite(views, site) ==> FirstOf(views + [view], site) == FirstOf(views, site)
    ensures !HasSite(views, site) && site == view.sitename ==>
              FirstOf(views + [view], site) == (view.hostAndPort, view.announce)
    decreases |views|
  {
    var all := views + [view];
    assert all[|views|] == view;
    if HasSite(views, site) {
      var i :| 0 <= i < |views| && views[i].sitename == site;
      assert all[i].sitename == site;
    }
    if views != [] && views[0].sitename != site {
      HasSiteSnoc(views[1..], view, site);
      assert all[1..] == views[1..] + [view];
      assert HasSite(views, site) ==> HasSite(views[1..], site) by {
        if HasSite(views, site) {
          var i :| 0 <= i < |views| && views[i].sitename == site;
          assert views[1..][i - 1] == views[i];
        }
      }
      assert HasSite(views[1..], site) ==> HasSite(views, site) by {
        if HasSite(views[1..], site) {
          var i :| 0 <= i < |views[1..]| && views[1..][i].sitename == site;
          assert views[i + 1].sitename == site;
        }
      }
    }
  }

  // A site's entry after the torrent's sites but those in `left` are counted.
  ghost predicate CountedAt(infos: map<string, SiteInfo>, sites: map<string, (string, string)>, left: set<string>,
                            r: map<string, SiteInfo>, site: string)
  {
    var now := site in sites && site !in left;
    && (site in r <==> site in infos || now)
    && (site in r ==>
          && r[site].sitename == site
          && r[site].count == (if site in infos then infos[site].count else 0) + (if now then 1 else 0)
          && (r[site].host, r[site].announceUrl)
             == if now then sites[site] else (infos[site].host, infos[site].announceUrl))
  }

  // Counts one torrent's sites; std::map hands them out in some order.
  method CountSites(infos: map<string, SiteInfo>, sites: map<string, (string, string)>)
    returns (r: map<string, SiteInfo>)
    requires forall site :: site in infos ==> infos[site].sitename == site
    ensures forall site :: CountedAt(infos, sites, {}, r, site)
  {
    r := infos;
    var left := sites.Keys;
    while left != {}
      invariant left <= sites.Keys
      invariant forall site :: CountedAt(infos, sites, left, r, site)
      decreases |left|
    {
      var sitename :| sitename in left;
      ghost var before, todo := r, left;
      assert CountedAt(infos, sites, left, r, sitename);
      left := left - {sitename};
      var info := if sitename in r then r[sitename] else SiteInfo(0, "", "", "");
      info := info.(host := sites[sitename].0, announceUrl := sites[sitename].1, sitename := sitename);
      info := info.(count := info.count + 1);
      r := r[sitename := info];
      forall site
        ensures CountedAt(infos, sites, left, r, site)
      {
        assert CountedAt(infos, sites, todo, before, site);
      }
    }
  }

  // The first loop of tracker_filter_model_update().
  method Tally(torrents: seq<Torrent>) returns (infos: map<string, SiteInfo>, nTorrents: nat)
    ensures Tallied(infos, torrents) && nTorrents == TorrentCount(torrents)
  {
    infos, nTorrents := map[], 0;
    for i := 0 to |torrents|
      invariant Tallied(infos, torrents[..i]) && nTorrents == TorrentCount(torrents[..i])
    {
      assert torrents[..i + 1][..i] == torrents[..i];
      ghost var before := infos;
      var sites := map[];
      if torrents[i].Some? {
        sites := SitesOf(torrents[i].value);
        forall site | site in infos
          ensures infos[site].sitename == site
        {
          assert TalliedAt(infos, torrents[..i], site);
        }
        infos := CountSites(infos, sites);
        nTorrents := nTorrents + 1;
      }
      ghost var seen := torrents[..i + 1];
      forall site
        ensures TalliedAt(infos, seen, site)
      {
        assert TalliedAt(before, torrents[..i], site);
        if torrents[i].Some? {
          assert CountedAt(before, sites, {}, infos, site) && FirstAt(sites, torrents[i].value, site);
        }
      }
    }
    assert torrents[..|torrents|] == torrents;
  }

  // ----- sorting

  predicate SiteLess(sites: seq<SiteInfo>, i: nat, j: nat)
    requires i < j < |sites|
  {
    TextLess(sites[i].sitename, sites[j].sitename)
  }

  ghost predicate SortedSites(sites: seq<SiteInfo>) {
    forall i, j :: 0 <= i < j < |sites| ==> SiteLess(sites, i, j)
  }

  function SitePlace(sites: seq<SiteInfo>, name: string): (r: nat)
    ensures r <= |sites|
  {
    if sites == [] || !TextLess(sites[0].sitename, name) then 0 else 1 + SitePlace(sites[1..], name)
  }

  lemma {:induction false} SitePlaceIs(sites: seq<SiteInfo>, name: string)
    ensures var r := SitePlace(sites, name);
            && (forall i :: 0 <= i < r ==> TextLess(sites[i].sitename, name))
            && (r < |sites| ==> !TextLess(sites[r].sitename, name))
  {
    if sites != [] && TextLess(sites[0].sitename, name) {
      SitePlaceIs(sites[1..], name);
      assert forall i :: 1 <= i < |sites| ==> sites[i] == sites[1..][i - 1];
    }
  }

  // Entry k comes before the name exactly if k < p.
  predicate SplitAt(sites: seq<SiteInfo>, name: string, p: nat, k: nat)
    requires k < |sites|
  {
    if k < p then TextLess(sites[k].sitename, name) else TextLess(name, sites[k].sitename)
  }

  lemma PlaceSplits(sites: seq<SiteInfo>, name: string, k: nat)
    requires SortedSites(sites) && k < |sites| && forall i :: 0 <= i < |sites| ==> sites[i].sitename != name
    ensures SplitAt(sites, name, SitePlace(sites, name), k)
  {
    var p := SitePlace(sites, name);
    SitePlaceIs(sites, name);
    if k >= p {
      TextLessTotal(name, sites[p].sitename);
      if k > p {
        assert SiteLess(sites, p, k);
        TextLessTransitive(name, sites[p].sitename, sites[k].sitename);
      }
    }
  }

  function Placed(sites: seq<SiteInfo>, p: nat, x: SiteInfo): (r: seq<SiteInfo>)
    requires p <= |sites|
    ensures |r| == |sites| + 1 && r[p] == x
    ensures forall k {:trigger r[k]} :: 0 <= k < |r| && k != p ==> r[k] == sites[if k < p then k else k - 1]
  {
    sites[..p] + [x] + sites[p..]
  }

  lemma PlacedAtSorted(sites: seq<SiteInfo>, x: SiteInfo, p: nat)
    requires SortedSites(sites) && p <= |sites| && forall k :: 0 <= k < |sites| ==> SplitAt(sites, x.sitename, p, k)
    ensures SortedSites(Placed(sites, p, x))
  {
    var r := Placed(sites, p, x);
    forall i, j | 0 <= i < j < |r|
      ensures SiteLess(r, i, j)
    {
      if i != p && j != p {
        assert SiteLess(sites, if i < p then i else i - 1, if j < p then j else j - 1);
      } else {
        assert SplitAt(sites, x.sitename, p, if i == p then j - 1 else i);
      }
    }
  }

  ghost predicate ListsSite(sites: seq<SiteInfo>, infos: map<string, SiteInfo>, name: string) {
    name in infos ==> exists i :: 0 <= i < |sites| && sites[i] == infos[name]
  }

  // std::ranges::sort() over the values of the map.
  method SortSites(infos: map<string, SiteInfo>) returns (sites: seq<SiteInfo>)
    requires forall name :: name in infos ==> infos[name].sitename == name
    ensures SortedSites(sites)
    ensures forall i :: 0 <= i < |sites| ==> sites[i].sitename in infos && sites[i] == infos[sites[i].sitename]
    ensures forall name :: name in infos ==> exists i :: 0 <= i < |sites| && sites[i] == infos[name]
  {
    sites := [];
    var left := infos.Keys;
    while left != {}
      invariant SortedSites(sites) && left <= infos.Keys
      invariant forall i :: 0 <= i < |sites| ==>
                              && sites[i].sitename in infos && sites[i].sitename !in left
                              && sites[i] == infos[sites[i].sitename]
      invariant forall name :: name !in left ==> ListsSite(sites, infos, name)
      decreases |left|
    {
      var name :| name in left;
      left := left - {name};
      ghost var before := sites;
      var p := SitePlace(sites, name);
      forall k | 0 <= k < |sites|
        ensures SplitAt(sites, name, p, k)
      {
        PlaceSplits(sites, name, k);
      }
      PlacedAtSorted(sites, infos[name], p);
      sites := Placed(sites, p, infos[name]);
      forall n | n !in left
        ensures ListsSite(sites, infos, n)
      {
        if n == name {
          assert sites[p] == infos[n];
        } else if n in infos {
          assert ListsSite(before, infos, n);
          var i :| 0 <= i < |before| && before[i] == infos[n];
          assert sites[if i < p then i else i + 1] == infos[n];
        }
      }
    }
    forall name | name in infos
      ensures exists i :: 0 <= i < |sites| && sites[i] == infos[name]
    {
      assert ListsSite(sites, infos, name);
    }
  }

  // ----- the merge

  // A row of the model; `handle` tells rows apart.
  datatype SiteRow = SiteRow(handle: nat, sitename: string, count: nat)

  predicate RowLess(rows: seq<SiteRow>, i: nat, j: nat)
    requires i < j < |rows|
  {
    TextLess(rows[i].sitename, rows[j].sitename)
  }

  ghost predicate SortedRows(rows: seq<SiteRow>) {
    forall i, j :: 0 <= i < j < |rows| ==> RowLess(rows, i, j)
  }

  // Row k shows site k.
  predicate Shows(rows: seq<SiteRow>, sites: seq<SiteInfo>, k: nat)
    requires k < |rows| && k < |sites|
  {
    rows[k].sitename == sites[k].sitename && rows[k].count == sites[k].count
  }

  // An old row was kept for its site, or its site is gone.
  ghost predicate Kept(rows: seq<SiteRow>, sites: seq<SiteInfo>, k: nat, row: SiteRow)
    requires k <= |rows|
  {
    || (exists i :: 0 <= i < k && rows[i].handle == row.handle && rows[i].sitename == row.sitename)
    || (forall i :: 0 <= i < |sites| ==> sites[i].sitename != row.sitename)
  }

  // All sites up to k come before the rows from k on, `left` of them.
  ghost predicate Behind(sites: seq<SiteInfo>, k: nat, left: seq<SiteRow>)
    requires k <= |sites|
  {
    forall i, j :: 0 <= i < k && 0 <= j < |left| ==> TextLess(sites[i].sitename, left[j].sitename)
  }

  ghost predicate MergeKeeps(was: seq<SiteRow>, rows: seq<SiteRow>, sites: seq<SiteInfo>, k: nat, done: nat)
    requires k <= |rows| && k <= |sites| && done <= |was|
  {
    && rows[k..] == was[done..] && Behind(sites, k, rows[k..])
    && forall m :: 0 <= m < done ==> Kept(rows, sites, k, was[m])
  }

  // A row before the next site, and behind all earlier ones, has no site.
  lemma RemovedHasNoSite(sites: seq<SiteInfo>, k: nat, left: seq<SiteRow>)
    requires SortedSites(sites) && k <= |sites| && left != [] && Behind(sites, k, left)
    requires k < |sites| ==> TextLess(left[0].sitename, sites[k].sitename)
    ensures forall i :: 0 <= i < |sites| ==> sites[i].sitename != left[0].sitename
  {
    forall i | 0 <= i < |sites|
      ensures sites[i].sitename != left[0].sitename
    {
      TextLessTotal(left[0].sitename, left[0].sitename);
      if i > k {
        assert SiteLess(sites, k, i);
        TextLessTransitive(left[0].sitename, sites[k].sitename, sites[i].sitename);
      }
    }
  }

  lemma KeptLater(rows: seq<SiteRow>, next: seq<SiteRow>, sites: seq<SiteInfo>, k: nat, l: nat, row: SiteRow)
    requires k <= l <= |next| && k <= |rows| && Kept(rows, sites, k, row)
    requires forall i :: 0 <= i < k ==> next[i].handle == rows[i].handle && next[i].sitename == rows[i].sitename
    ensures Kept(next, sites, l, row)
  {
    if i :| 0 <= i < k && rows[i].handle == row.handle && rows[i].sitename == row.sitename {
      assert next[i].handle == row.handle && next[i].sitename == row.sitename;
    }
  }

  lemma KeepsOnRemove(was: seq<SiteRow>, rows: seq<SiteRow>, sites: seq<SiteInfo>, k: nat, done: nat)
    requires k < |rows| && k <= |sites| && done < |was| && SortedSites(sites) && MergeKeeps(was, rows, sites, k, done)
    requires k < |sites| ==> TextLess(rows[k].sitename, sites[k].sitename)
    ensures MergeKeeps(was, rows[..k] + rows[k + 1..], sites, k, done + 1)
  {
    var next := rows[..k] + rows[k + 1..];
    var left := rows[k..];
    RemovedHasNoSite(sites, k, left);
    assert next[k..] == left[1..] == was[done + 1..];
    assert was[done] == left[0];
    forall m | 0 <= m < done + 1
      ensures Kept(next, sites, k, was[m])
    {
      if m < done {
        KeptLater(rows, next, sites, k, k, was[m]);
      }
    }
  }

  lemma KeepsOnInsert(was: seq<SiteRow>, rows: seq<SiteRow>, sites: seq<SiteInfo>, k: nat, done: nat, row: SiteRow)
    requires k <= |rows| && k < |sites| && done <= |was| && SortedRows(was) && MergeKeeps(was, rows, sites, k, done)
    requires k < |rows| ==> TextLess(sites[k].sitename, rows[k].sitename)
    ensures MergeKeeps(was, rows[..k] + [row] + rows[k..], sites, k + 1, done)
  {
    var next := rows[..k] + [row] + rows[k..];
    var left := rows[k..];
    assert next[k + 1..] == left;
    forall i, j | 0 <= i < k + 1 && 0 <= j < |left|
      ensures TextLess(sites[i].sitename, left[j].sitename)
    {
      if i == k && j > 0 {
        assert RowLess(was, done, done + j) && left[j] == was[done + j] && left[0] == was[done];
        TextLessTransitive(sites[k].sitename, left[0].sitename, left[j].sitename);
      }
    }
    forall m | 0 <= m < done
      ensures Kept(next, sites, k + 1, was[m])
    {
      KeptLater(rows, next, sites, k, k + 1, was[m]);
    }
  }

  lemma KeepsOnUpdate(was: seq<SiteRow>, rows: seq<SiteRow>, sites: seq<SiteInfo>, k: nat, done: nat, count: nat)
    requires k < |rows| && k < |sites| && done < |was| && SortedRows(was) && MergeKeeps(was, rows, sites, k, done)
    requires rows[k].sitename == sites[k].sitename
    ensures MergeKeeps(was, rows[k := rows[k].(count := count)], sites, k + 1, done + 1)
  {
    var next := rows[k := rows[k].(count := count)];
    var left := rows[k..];
    assert next[k + 1..] == left[1..] == was[done + 1..];
    assert left[0] == was[done];
    forall i, j | 0 <= i < k + 1 && 0 <= j < |left| - 1
      ensures TextLess(sites[i].sitename, left[1..][j].sitename)
    {
      if i == k {
        assert RowLess(was, done, done + 1 + j) && left[j + 1] == was[done + 1 + j];
      } else {
        assert TextLess(sites[i].sitename, left[j + 1].sitename);
      }
    }
    forall m | 0 <= m < done + 1
      ensures Kept(next, sites, k + 1, was[m])
    {
      if m < done {
        KeptLater(rows, next, sites, k, k + 1, was[m]);
      } else {
        assert next[k].handle == was[m].handle && next[k].sitename == was[m].sitename;
      }
    }
  }

  // Handles tell rows apart, and the next one is new.
  ghost predicate Handles(rows: seq<SiteRow>, nextHandle: nat) {
    && (forall i :: 0 <= i < |rows| ==> rows[i].handle < nextHandle)
    && (forall i, j :: 0 <= i < j < |rows| ==> rows[i].handle != rows[j].handle)
  }

  // A row is one of the old rows, for the same site, or has a new handle.
  ghost predicate OldOrNew(was: seq<SiteRow>, first: nat, row: SiteRow) {
    row.handle < first ==> exists m :: 0 <= m < |was| && was[m].handle == row.handle && was[m].sitename == row.sitename
  }

  ghost predicate Identified(was: seq<SiteRow>, first: nat, rows: seq<SiteRow>, nextHandle: nat) {
    && first <= nextHandle && Handles(rows, nextHandle)
    && forall k :: 0 <= k < |rows| ==> OldOrNew(was, first, rows[k])
  }

  lemma StartIdentified(rows: seq<SiteRow>, nextHandle: nat)
    requires Handles(rows, nextHandle)
    ensures Identified(rows, nextHandle, rows, nextHandle)
  {
    forall k | 0 <= k < |rows|
      ensures OldOrNew(rows, nextHandle, rows[k])
    {
    }
  }

  lemma RemovedIdentified(was: seq<SiteRow>, first: nat, rows: seq<SiteRow>, nextHandle: nat, k: nat)
    requires Identified(was, first, rows, nextHandle) && k < |rows|
    ensures Identified(was, first, rows[..k] + rows[k + 1..], nextHandle)
  {
    var next := rows[..k] + rows[k + 1..];
    assert forall i :: 0 <= i < |next| ==> next[i] == rows[if i < k then i else i + 1];
  }

  lemma InsertedIdentified(was: seq<SiteRow>, first: nat, rows: seq<SiteRow>, nextHandle: nat, k: nat, row: SiteRow)
    requires Identified(was, first, rows, nextHandle) && k <= |rows| && row.handle == nextHandle
    ensures Identified(was, first, rows[..k] + [row] + rows[k..], nextHandle + 1)
  {
    var next := rows[..k] + [row] + rows[k..];
    assert forall i :: 0 <= i < |next| ==> next[i] == if i == k then row else rows[if i < k then i else i - 1];
    assert OldOrNew(was, first, row);
  }

  lemma UpdatedIdentified(was: seq<SiteRow>, first: nat, rows: seq<SiteRow>, nextHandle: nat, k: nat, count: nat)
    requires Identified(was, first, rows, nextHandle) && k < |rows|
    ensures Identified(was, first, rows[k := rows[k].(count := count)], nextHandle)
  {
    var next := rows[k := rows[k].(count := count)];
    forall i | 0 <= i < |next|
      ensures OldOrNew(was, first, next[i])
    {
      assert OldOrNew(was, first, rows[i]);
    }
  }

  // With the handles distinct before, a row keeps its handle or has a new one.
  lemma SameHandleSameSite(was: seq<SiteRow>, first: nat, rows: seq<SiteRow>, nextHandle: nat, m: nat, k: nat)
    requires Handles(was, first) && Identified(was, first, rows, nextHandle) && m < |was| && k < |rows|
    requires rows[k].handle == was[m].handle
    ensures rows[k].sitename == was[m].sitename
  {
    assert OldOrNew(was, first, rows[k]);
    var n :| 0 <= n < |was| && was[n].handle == rows[k].handle && was[n].sitename == rows[k].sitename;
    assert n == m;
  }

  // Changing rows from k on does not touch what earlier rows show.
  lemma ShowsLater(rows: seq<SiteRow>, next: seq<SiteRow>, sites: seq<SiteInfo>, k: nat)
    requires k <= |rows| && k <= |next| && k <= |sites| && next[..k] == rows[..k]
    requires forall i :: 0 <= i < k ==> Shows(rows, sites, i)
    ensures forall i :: 0 <= i < k ==> Shows(next, sites, i)
  {
    forall i | 0 <= i < k
      ensures Shows(next, sites, i)
    {
      assert Shows(rows, sites, i) && next[i] == next[..k][i] && rows[i] == rows[..k][i];
    }
  }

  // The state of the merge loop: k sites and `done` old rows are dealt with.
  ghost predicate Merging(was: seq<SiteRow>, first: nat, rows: seq<SiteRow>, nextHandle: nat, sites: seq<SiteInfo>,
                          k: nat, done: nat)
  {
    && k <= |rows| && k <= |sites| && (forall i :: 0 <= i < k ==> Shows(rows, sites, i))
    && Identified(was, first, rows, nextHandle)
    && (SortedRows(was) ==> done <= |was| && MergeKeeps(was, rows, sites, k, done))
  }

  lemma MergingRemove(was: seq<SiteRow>, first: nat, rows: seq<SiteRow>, nextHandle: nat, sites: seq<SiteInfo>, k: nat,
                      done: nat)
    requires Merging(was, first, rows, nextHandle, sites, k, done) && SortedSites(sites) && k < |rows|
    requires k < |sites| ==> TextLess(rows[k].sitename, sites[k].sitename)
    ensures Merging(was, first, rows[..k] + rows[k + 1..], nextHandle, sites, k, done + 1)
  {
    if SortedRows(was) {
      assert |rows[k..]| == |was[done..]|;
      KeepsOnRemove(was, rows, sites, k, done);
    }
    ShowsLater(rows, rows[..k] + rows[k + 1..], sites, k);
    RemovedIdentified(was, first, rows, nextHandle, k);
  }

  lemma MergingInsert(was: seq<SiteRow>, first: nat, rows: seq<SiteRow>, nextHandle: nat, sites: seq<SiteInfo>, k: nat,
                      done: nat)
    requires Merging(was, first, rows, nextHandle, sites, k, done) && k < |sites|
    requires k < |rows| ==> TextLess(sites[k].sitename, rows[k].sitename)
    ensures var row := SiteRow(nextHandle, sites[k].sitename, sites[k].count);
            Merging(was, first, rows[..k] + [row] + rows[k..], nextHandle + 1, sites, k + 1, done)
  {
    var row := SiteRow(nextHandle, sites[k].sitename, sites[k].count);
    if SortedRows(was) {
      KeepsOnInsert(was, rows, sites, k, done, row);
    }
    ShowsLater(rows, rows[..k] + [row] + rows[k..], sites, k);
    InsertedIdentified(was, first, rows, nextHandle, k, row);
  }

  lemma MergingUpdate(was: seq<SiteRow>, first: nat, rows: seq<SiteRow>, nextHandle: nat, sites: seq<SiteInfo>, k: nat,
                      done: nat)
    requires Merging(was, first, rows, nextHandle, sites, k, done) && k < |sites| && k < |rows|
    requires rows[k].sitename == sites[k].sitename
    ensures Merging(was, first, rows[k := rows[k].(count := sites[k].count)], nextHandle, sites, k + 1, done + 1)
  {
    if SortedRows(was) {
      assert |rows[k..]| == |was[done..]|;
      KeepsOnUpdate(was, rows, sites, k, done, sites[k].count);
    }
    ShowsLater(rows, rows[k := rows[k].(count := sites[k].count)], sites, k);
    UpdatedIdentified(was, first, rows, nextHandle, k, sites[k].count);
  }

  // At the end every old row is dealt with.
  lemma MergingEnds(was: seq<SiteRow>, first: nat, rows: seq<SiteRow>, nextHandle: nat, sites: seq<SiteInfo>, done: nat)
    requires Merging(was, first, rows, nextHandle, sites, |rows|, done) && SortedRows(was)
    ensures forall m :: 0 <= m < |was| ==> Kept(rows, sites, |rows|, was[m])
  {
    assert |rows[|rows|..]| == |was[done..]|;
  }

  // The tree store: the "All" row's count, then, past the separator, the sites.
  class TrackerModel {
    var allCount: nat
    var rows: seq<SiteRow>
    var nextHandle: nat

    ghost predicate Valid()
      reads this
    {
      Handles(rows, nextHandle)
    }

    constructor ()
      ensures Valid() && allCount == 0 && rows == []
    {
      allCount, rows, nextHandle := 0, [], 0;
    }

    // The merge loop: it ends with row k showing site k, whatever the rows were,
    // and keeps the rows of sites that stay if the rows were sorted.
    method Merge(sites: seq<SiteInfo>)
      requires Valid() && SortedSites(sites)
      modifies this`rows, this`nextHandle
      ensures Valid() && Identified(old(rows), old(nextHandle), rows, nextHandle)
      ensures |rows| == |sites| && forall k :: 0 <= k < |sites| ==> Shows(rows, sites, k)
      ensures SortedRows(old(rows)) ==> forall m :: 0 <= m < |old(rows)| ==> Kept(rows, sites, |rows|, old(rows)[m])
    {
      ghost var was, first, done := rows, nextHandle, 0;
      StartIdentified(rows, nextHandle);
      var i, iter := 0, 0;
      while true
        invariant i == iter && Merging(was, first, rows, nextHandle, sites, i, done)
        decreases |sites| - i + |rows| - iter
      {
        var newDone, oldDone := i >= |sites|, iter >= |rows|;
        if newDone && oldDone {
          break;
        }
        var removeRow, insertRow := false, false;
        if newDone {
          removeRow := true;
        } else if oldDone {
          insertRow := true;
        } else if TextLess(rows[iter].sitename, sites[i].sitename) {
          removeRow := true;
        } else if TextLess(sites[i].sitename, rows[iter].sitename) {
          insertRow := true;
        }
        if removeRow {
          RemoveAt(iter, was, first, sites, done);
          done := done + 1;
        } else if insertRow {
          InsertAt(iter, sites[i], was, first, sites, done);
          iter := iter + 1;
          i := i + 1;
        } else {
          TextLessTotal(rows[iter].sitename, sites[i].sitename);
          SetCount(iter, sites[i].count, was, first, sites, done);
          iter := iter + 1;
          i := i + 1;
          done := done + 1;
        }
      }
      if SortedRows(was) {
        MergingEnds(was, first, rows, nextHandle, sites, done);
      }
    }

    // The three things the loop does to the store.
    method RemoveAt(iter: nat, ghost was: seq<SiteRow>, ghost first: nat, ghost sites: seq<SiteInfo>, ghost done: nat)
      requires Merging(was, first, rows, nextHandle, sites, iter, done) && SortedSites(sites) && iter < |rows|
      requires iter < |sites| ==> TextLess(rows[iter].sitename, sites[iter].sitename)
      modifies this`rows
      ensures Merging(was, first, rows, nextHandle, sites, iter, done + 1) && |rows| == |old(rows)| - 1
    {
      MergingRemove(was, first, rows, nextHandle, sites, iter, done);
      rows := rows[..iter] + rows[iter + 1..];
    }

    method InsertAt(iter: nat, site: SiteInfo, ghost was: seq<SiteRow>, ghost first: nat, ghost sites: seq<SiteInfo>,
                    ghost done: nat)
      requires Merging(was, first, rows, nextHandle, sites, iter, done) && iter < |sites| && site == sites[iter]
      requires iter < |rows| ==> TextLess(site.sitename, rows[iter].sitename)
      modifies this`rows, this`nextHandle
      ensures Merging(was, first, rows, nextHandle, sites, iter + 1, done) && |rows| == |old(rows)| + 1
    {
      MergingInsert(was, first, rows, nextHandle, sites, iter, done);
      rows := rows[..iter] + [SiteRow(nextHandle, site.sitename, site.count)] + rows[iter..];
      nextHandle := nextHandle + 1;
    }

    method SetCount(iter: nat, count: nat, ghost was: seq<SiteRow>, ghost first: nat, ghost sites: seq<SiteInfo>,
                    ghost done: nat)
      requires Merging(was, first, rows, nextHandle, sites, iter, done) && iter < |sites| && iter < |rows|
      requires rows[iter].sitename == sites[iter].sitename && count == sites[iter].count
      modifies this`rows
      ensures Merging(was, first, rows, nextHandle, sites, iter + 1, done + 1) && |rows| == |old(rows)|
    {
      MergingUpdate(was, first, rows, nextHandle, sites, iter, done);
      rows := rows[iter := rows[iter].(count := count)];
    }

    // tracker_filter_model_update()
    method Update(torrents: seq<Torrent>)
      requires Valid()
      modifies this
      ensures Valid() && allCount == TorrentCount(torrents) && SortedRows(rows)
      ensures forall k :: 0 <= k < |rows| ==> rows[k].count == TorrentsWith(torrents, rows[k].sitename) > 0
      ensures forall site :: TorrentsWith(torrents, site) > 0 ==>
                exists k :: 0 <= k < |rows| && rows[k].sitename == site
      ensures SortedRows(old(rows)) ==>
                forall m, k :: 0 <= m < |old(rows)| && 0 <= k < |rows| ==>
                                 (rows[k].sitename == old(rows)[m].sitename <==> rows[k].handle == old(rows)[m].handle)
    {
      ghost var was, first := rows, nextHandle;
      var infos, nTorrents := Tally(torrents);
      NamesMatch(infos, torrents);
      var sites := SortSites(infos);
      allCount := nTorrents;
      Merge(sites);
      MergedRows(rows, sites, infos, torrents);
      if SortedRows(was) {
        forall m, k | 0 <= m < |was| && 0 <= k < |rows|
          ensures rows[k].sitename == was[m].sitename <==> rows[k].handle == was[m].handle
        {
          if rows[k].handle == was[m].handle {
            SameHandleSameSite(was, first, rows, nextHandle, m, k);
          } else if rows[k].sitename == was[m].sitename {
            KeptHandle(rows, sites, was[m], k);
          }
        }
      }
    }
  }

  lemma NamesMatch(infos: map<string, SiteInfo>, torrents: seq<Torrent>)
    requires Tallied(infos, torrents)
    ensures forall name :: name in infos ==> infos[name].sitename == name
  {
    forall name | name in infos
      ensures infos[name].sitename == name
    {
      assert TalliedAt(infos, torrents, name);
    }
  }

  lemma MergedRows(rows: seq<SiteRow>, sites: seq<SiteInfo>, infos: map<string, SiteInfo>, torrents: seq<Torrent>)
    requires |rows| == |sites| && (forall k :: 0 <= k < |sites| ==> Shows(rows, sites, k)) && SortedSites(sites)
    requires Tallied(infos, torrents)
    requires forall i :: 0 <= i < |sites| ==> sites[i].sitename in infos && sites[i] == infos[sites[i].sitename]
    requires forall name :: name in infos ==> exists i :: 0 <= i < |sites| && sites[i] == infos[name]
    ensures SortedRows(rows)
    ensures forall k :: 0 <= k < |rows| ==> rows[k].count == TorrentsWith(torrents, rows[k].sitename) > 0
    ensures forall site :: TorrentsWith(torrents, site) > 0 ==> exists k :: 0 <= k < |rows| && rows[k].sitename == site
  {
    forall i, j | 0 <= i < j < |rows|
      ensures RowLess(rows, i, j)
    {
      assert SiteLess(sites, i, j) && Shows(rows, sites, i) && Shows(rows, sites, j);
    }
    forall k | 0 <= k < |rows|
      ensures rows[k].count == TorrentsWith(torrents, rows[k].sitename) > 0
    {
      assert Shows(rows, sites, k) && TalliedAt(infos, torrents, sites[k].sitename);
    }
    forall site | TorrentsWith(torrents, site) > 0
      ensures exists k :: 0 <= k < |rows| && rows[k].sitename == site
    {
      assert TalliedAt(infos, torrents, site);
      var i :| 0 <= i < |sites| && sites[i] == infos[site];
      assert Shows(rows, sites, i);
    }
  }

  lemma KeptHandle(rows: seq<SiteRow>, sites: seq<SiteInfo>, row: SiteRow, k: nat)
    requires |rows| == |sites| && (forall i :: 0 <= i < |sites| ==> Shows(rows, sites, i)) && SortedSites(sites)
    requires Kept(rows, sites, |rows|, row) && k < |rows| && rows[k].sitename == row.sitename
    ensures rows[k].handle == row.handle
  {
    assert Shows(rows, sites, k);
    var i :| 0 <= i < |rows| && rows[i].handle == row.handle && rows[i].sitename == row.sitename;
    assert Shows(rows, sites, i);
    TextLessTotal(row.sitename, row.sitename);
    assert i < k ==> SiteLess(sites, i, k);
    assert k < i ==> SiteLess(sites, k, i);
  }
}
