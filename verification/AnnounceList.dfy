// The announce list: sorted by tier and URL, free of duplicates, sibling URLs
// in one tier (libtransmission/announce-list.cc).
module AnnounceList {
  import opened Options
  import opened Text
  import opened AnnounceUrls

  // tr_announce_list::tracker_info
  datatype Info = Info(announce: string, scrape: string, parsed: Url, tier: nat, id: nat)

  predicate Less(a: Info, b: Info) {
    a.tier < b.tier || (a.tier == b.tier && TextLess(a.announce, b.announce))
  }

  lemma LessOrders(a: Info, b: Info, c: Info)
    ensures !Less(a, a) && !(Less(a, b) && Less(b, a))
    ensures Less(a, b) || Less(b, a) || (a.tier == b.tier && a.announce == b.announce)
    ensures Less(a, b) && Less(b, c) ==> Less(a, c)
  {
    TextLessTotal(a.announce, b.announce);
    TextLessTotal(a.announce, a.announce);
    if TextLess(a.announce, b.announce) && TextLess(b.announce, c.announce) {
      TextLessTransitive(a.announce, b.announce, c.announce);
    }
  }

  // ----- what a list keeps

  function ScrapeText(announce: string): string {
    var scrape := ScrapeOf(announce);
    if scrape.Some? then scrape.value else ""
  }

  predicate Genuine(urls: Parser, t: Info) {
    ParseTracker(urls, t.announce) == Some(t.parsed) && t.scrape == ScrapeText(t.announce)
  }

  ghost predicate AllGenuine(urls: Parser, list: seq<Info>) {
    forall t {:trigger Genuine(urls, t)} :: t in list ==> Genuine(urls, t)
  }

  predicate InOrder(list: seq<Info>, i: nat, j: nat)
    requires i < j < |list|
  {
    Less(list[i], list[j])
  }

  predicate Differ(list: seq<Info>, i: nat, j: nat)
    requires i < j < |list|
  {
    !Same(list[i].parsed, list[j].parsed) && list[i].id != list[j].id
  }

  predicate OneTier(list: seq<Info>, s: Info, t: Info) {
    s in list && t in list && Siblings(s.parsed, t.parsed) ==> s.tier == t.tier
  }

  ghost predicate Sorted(list: seq<Info>) {
    forall i, j :: 0 <= i < j < |list| ==> InOrder(list, i, j)
  }

  // No two entries are the same URL, and no two have the same id.
  ghost predicate Distinct(list: seq<Info>) {
    forall i, j :: 0 <= i < j < |list| ==> Differ(list, i, j)
  }

  ghost predicate SharedTiers(list: seq<Info>) {
    forall s, t :: OneTier(list, s, t)
  }

  ghost predicate Good(urls: Parser, list: seq<Info>) {
    AllGenuine(urls, list) && Sorted(list) && Distinct(list) && SharedTiers(list)
  }

  // ----- what that means, in the parts of a URL

  predicate SameParts(a: Url, b: Url) {
    a.scheme == b.scheme && a.host == b.host && a.port == b.port && a.path == b.path && a.query == b.query
  }

  predicate SharesHostAndPath(a: Url, b: Url) {
    a.host == b.host && a.path == b.path
  }

  // By tier, then by text.
  predicate EntryBefore(a: Info, b: Info) {
    a.tier < b.tier || (a.tier == b.tier && TextLess(a.announce, b.announce))
  }

  lemma GoodMeaning(urls: Parser, list: seq<Info>, i: nat, j: nat)
    requires Good(urls, list) && i < j < |list|
    ensures EntryBefore(list[i], list[j]) && list[i].id != list[j].id && !SameParts(list[i].parsed, list[j].parsed)
    ensures SharesHostAndPath(list[i].parsed, list[j].parsed) ==> list[i].tier == list[j].tier
  {
    assert InOrder(list, i, j) && Differ(list, i, j) && OneTier(list, list[i], list[j]);
  }

  lemma GenuineMeaning(urls: Parser, list: seq<Info>, t: Info)
    requires Good(urls, list) && t in list
    ensures urls(t.announce) == Some(t.parsed) && t.parsed.scheme in {"http", "https", "udp"}
    ensures ScrapeIs(t.announce, t.scrape)
  {
    assert Genuine(urls, t);
    ScrapeOfIs(t.announce);
  }

  // ----- can_add() and get_tier()

  // The test in can_add(), with its shortcut. The source takes for granted that
  // a listed URL parses, which Genuine guarantees.
  predicate IsSame(urls: Parser, t: Info, u: Url) {
    Contains(t.announce, u.host) && urls(t.announce).Some? && Same(urls(t.announce).value, u)
  }

  predicate IsSibling(urls: Parser, t: Info, u: Url) {
    Contains(t.announce, u.host) && urls(t.announce).Some? && Siblings(urls(t.announce).value, u)
  }

  // The shortcut never changes an answer.
  lemma ShortcutIsSound(urls: Parser, t: Info, u: Url)
    requires HostsInText(urls) && Genuine(urls, t)
    ensures IsSame(urls, t, u) <==> Same(t.parsed, u)
    ensures IsSibling(urls, t, u) <==> Siblings(t.parsed, u)
  {
    assert Contains(t.announce, t.parsed.host);
  }

  predicate CanAdd(urls: Parser, list: seq<Info>, u: Url) {
    forall t {:trigger IsSame(urls, t, u)} :: t in list ==> !IsSame(urls, t, u)
  }

  function GetTier(urls: Parser, list: seq<Info>, tier: nat, u: Url): nat {
    if list == [] then tier
    else if IsSibling(urls, list[0], u) then list[0].tier
    else GetTier(urls, list[1..], tier, u)
  }

  // No list holding siblings in one tier depends on which sibling is found.
  lemma {:induction false} GetTierIsSiblings(urls: Parser, list: seq<Info>, tier: nat, u: Url)
    requires HostsInText(urls) && AllGenuine(urls, list) && SharedTiers(list)
    ensures forall t :: t in list && Siblings(t.parsed, u) ==> GetTier(urls, list, tier, u) == t.tier
    ensures (forall t :: t in list ==> !Siblings(t.parsed, u)) ==> GetTier(urls, list, tier, u) == tier
  {
    if list != [] {
      ShortcutIsSound(urls, list[0], u);
      var rest := list[1..];
      forall s, t
        ensures OneTier(rest, s, t)
      {
        assert OneTier(list, s, t);
      }
      GetTierIsSiblings(urls, rest, tier, u);
      assert list == [list[0]] + rest;
      forall t | t in list && Siblings(t.parsed, u)
        ensures GetTier(urls, list, tier, u) == t.tier
      {
        assert OneTier(list, list[0], t);
      }
    }
  }

  lemma CanAddIsNoDuplicate(urls: Parser, list: seq<Info>, u: Url)
    requires HostsInText(urls) && AllGenuine(urls, list)
    ensures CanAdd(urls, list, u) <==> forall t :: t in list ==> !Same(t.parsed, u)
  {
    forall t | t in list
      ensures IsSame(urls, t, u) <==> Same(t.parsed, u)
    {
      assert Genuine(urls, t);
      ShortcutIsSound(urls, t, u);
    }
  }

  // ----- adding

  // std::ranges::lower_bound()
  function LowerBound(list: seq<Info>, x: Info): (r: nat)
    ensures r <= |list|
  {
    if list == [] || !Less(list[0], x) then 0 else 1 + LowerBound(list[1..], x)
  }

  // The first entry that is not less.
  lemma {:induction false} LowerBoundIs(list: seq<Info>, x: Info)
    ensures var r := LowerBound(list, x);
            (forall i :: 0 <= i < r ==> Less(list[i], x)) && (r < |list| ==> !Less(list[r], x))
  {
    if list != [] && Less(list[0], x) {
      LowerBoundIs(list[1..], x);
      assert forall i :: 1 <= i < |list| ==> list[i] == list[1..][i - 1];
    }
  }

  function Insert(list: seq<Info>, i: nat, x: Info): seq<Info>
    requires i <= |list|
  {
    list[..i] + [x] + list[i..]
  }

  function NewInfo(urls: Parser, list: seq<Info>, text: string, tier: nat, id: nat): Info
    requires ParseTracker(urls, text).Some?
  {
    var u := ParseTracker(urls, text).value;
    Info(text, ScrapeText(text), u, GetTier(urls, list, tier, u), id)
  }

  // add(announce_url, tier): the new list, or nothing.
  function Added(urls: Parser, list: seq<Info>, text: string, tier: nat, id: nat): Option<seq<Info>> {
    var u := ParseTracker(urls, text);
    if u == None || !CanAdd(urls, list, u.value) then None
    else
      var x := NewInfo(urls, list, text, tier, id);
      Some(Insert(list, LowerBound(list, x), x))
  }

  lemma InsertSorted(list: seq<Info>, x: Info)
    requires Sorted(list) && forall t :: t in list ==> !(t.tier == x.tier && t.announce == x.announce)
    ensures Sorted(Insert(list, LowerBound(list, x), x))
  {
    var p := LowerBound(list, x);
    LowerBoundIs(list, x);
    var r := Insert(list, p, x);
    forall i | p <= i < |list|
      ensures Less(x, list[i])
    {
      assert list[p] in list;
      assert i == p || InOrder(list, p, i);
      LessOrders(list[p], x, x);
      LessOrders(x, list[p], list[i]);
    }
    forall i, j | 0 <= i < j < |r|
      ensures InOrder(r, i, j)
    {
      assert i != p && j != p ==> InOrder(list, if i < p then i else i - 1, if j < p then j else j - 1);
    }
  }

  lemma AddedGood(urls: Parser, list: seq<Info>, text: string, tier: nat, id: nat)
    requires HostsInText(urls) && Good(urls, list) && forall t :: t in list ==> t.id != id
    ensures var r := Added(urls, list, text, tier, id); r.Some? ==> Good(urls, r.value)
  {
    var u := ParseTracker(urls, text);
    if u.Some? && CanAdd(urls, list, u.value) {
      var x := NewInfo(urls, list, text, tier, id);
      CanAddIsNoDuplicate(urls, list, u.value);
      GetTierIsSiblings(urls, list, tier, u.value);
      forall t | t in list
        ensures t.announce != x.announce
      {
        assert Genuine(urls, t);
      }
      InsertSorted(list, x);
      InsertKeeps(urls, list, LowerBound(list, x), x);
    }
  }

  // A URL can be added if it parses, has a tracker's scheme, and differs from
  // every entry in scheme, host, port, path or query.
  ghost predicate Addable(urls: Parser, list: seq<Info>, text: string) {
    && urls(text).Some? && urls(text).value.scheme in {"http", "https", "udp"}
    && forall t :: t in list ==> !SameParts(t.parsed, urls(text).value)
  }

  // The entry of a URL added to a list: in the tier of the entries that share
  // its host and path, and otherwise in the one asked for.
  ghost predicate IsEntry(urls: Parser, list: seq<Info>, text: string, tier: nat, id: nat, x: Info) {
    && x.announce == text && urls(text) == Some(x.parsed) && x.id == id && ScrapeIs(text, x.scrape)
    && (forall t :: t in list && SharesHostAndPath(t.parsed, x.parsed) ==> x.tier == t.tier)
    && ((forall t :: t in list ==> !SharesHostAndPath(t.parsed, x.parsed)) ==> x.tier == tier)
  }

  // r is the list with x at its place.
  ghost predicate Places(list: seq<Info>, x: Info, r: seq<Info>) {
    exists p :: 0 <= p <= |list| && r == list[..p] + [x] + list[p..]
                && (forall i :: 0 <= i < p ==> EntryBefore(list[i], x))
                && (forall i :: p <= i < |list| ==> EntryBefore(x, list[i]))
  }

  // Main result for adding.
  lemma AddedMeaning(urls: Parser, list: seq<Info>, text: string, tier: nat, id: nat)
    requires HostsInText(urls) && Good(urls, list)
    ensures match Added(urls, list, text, tier, id)
            case None => !Addable(urls, list, text)
            case Some(r) =>
              Addable(urls, list, text) && exists x :: IsEntry(urls, list, text, tier, id, x) && Places(list, x, r)
  {
    var u := ParseTracker(urls, text);
    if u.Some? {
      CanAddIsNoDuplicate(urls, list, u.value);
      assert CanAdd(urls, list, u.value) <==> Addable(urls, list, text);
      if CanAdd(urls, list, u.value) {
        var x := NewInfo(urls, list, text, tier, id);
        GetTierIsSiblings(urls, list, tier, u.value);
        ScrapeOfIs(text);
        assert IsEntry(urls, list, text, tier, id, x);
        AddedPlaces(urls, list, x);
      }
    }
  }

  lemma AddedPlaces(urls: Parser, list: seq<Info>, x: Info)
    requires Good(urls, list) && ParseTracker(urls, x.announce) == Some(x.parsed)
    requires forall t :: t in list ==> !Same(t.parsed, x.parsed)
    ensures Places(list, x, Insert(list, LowerBound(list, x), x))
  {
    var p := LowerBound(list, x);
    LowerBoundIs(list, x);
    forall i | p <= i < |list|
      ensures EntryBefore(x, list[i])
    {
      assert list[p] in list && Genuine(urls, list[p]);
      assert i == p || InOrder(list, p, i);
      LessOrders(list[p], x, x);
      LessOrders(x, list[p], list[i]);
    }
    assert forall i :: 0 <= i < p ==> EntryBefore(list[i], x);
  }

  lemma InsertKeeps(urls: Parser, list: seq<Info>, p: nat, x: Info)
    requires p <= |list| && AllGenuine(urls, list) && Distinct(list) && SharedTiers(list)
    requires Genuine(urls, x) && forall t :: t in list ==> !Same(t.parsed, x.parsed) && t.id != x.id
    requires forall t :: t in list && Siblings(t.parsed, x.parsed) ==> t.tier == x.tier
    ensures var r := Insert(list, p, x); AllGenuine(urls, r) && Distinct(r) && SharedTiers(r)
  {
    var r := Insert(list, p, x);
    forall t
      ensures t in r <==> t == x || t in list
    {
      InsertHas(list, p, x, t);
    }
    forall i, j | 0 <= i < j < |r|
      ensures Differ(r, i, j)
    {
      if i != p && j != p {
        assert Differ(list, if i < p then i else i - 1, if j < p then j else j - 1);
      } else if i == p {
        assert r[j] == list[j - 1] && r[j] in list;
      } else {
        assert r[i] == list[i] && r[i] in list;
      }
    }
    forall s, t
      ensures OneTier(r, s, t)
    {
      assert OneTier(list, s, t);
    }
  }

  lemma InsertHas(list: seq<Info>, p: nat, x: Info, t: Info)
    requires p <= |list|
    ensures t in Insert(list, p, x) <==> t == x || t in list
  {
    assert list == list[..p] + list[p..];
  }

  // ----- removing

  function Without(list: seq<Info>, i: nat): seq<Info>
    requires i < |list|
  {
    list[..i] + list[i + 1..]
  }

  lemma WithoutGood(urls: Parser, list: seq<Info>, i: nat)
    requires Good(urls, list) && i < |list|
    ensures Good(urls, Without(list, i))
    ensures forall t :: t in Without(list, i) <==> t in list && t != list[i]
  {
    var r := Without(list, i);
    forall j, k | 0 <= j < k < |r|
      ensures InOrder(r, j, k) && Differ(r, j, k)
    {
      var j', k' := if j < i then j else j + 1, if k < i then k else k + 1;
      assert InOrder(list, j', k') && Differ(list, j', k');
    }
    forall t
      ensures t in r <==> t in list && t != list[i]
    {
      WithoutHas(urls, list, i, t);
    }
    forall s, t
      ensures OneTier(r, s, t)
    {
      assert OneTier(list, s, t);
    }
  }

  lemma WithoutHas(urls: Parser, list: seq<Info>, i: nat, t: Info)
    requires Distinct(list) && i < |list|
    ensures t in Without(list, i) <==> t in list && t != list[i]
  {
    var r := Without(list, i);
    if t in r {
      var j :| 0 <= j < |r| && r[j] == t;
      assert if j < i then Differ(list, j, i) else Differ(list, i, j + 1);
    }
    if t in list && t != list[i] {
      var j :| 0 <= j < |list| && list[j] == t;
      assert r[if j < i then j else j - 1] == t;
    }
  }

  function FindText(list: seq<Info>, announce: string): (r: Option<nat>)
    ensures r.Some? ==> r.value < |list| && list[r.value].announce == announce
    ensures r.None? <==> forall t :: t in list ==> t.announce != announce
  {
    if list == [] then None
    else if list[0].announce == announce then Some(0)
    else
      var rest := FindText(list[1..], announce);
      if rest.Some? then Some(rest.value + 1) else None
  }

  function FindId(list: seq<Info>, id: nat): (r: Option<nat>)
    ensures r.Some? ==> r.value < |list| && list[r.value].id == id
    ensures r.None? <==> forall t :: t in list ==> t.id != id
  {
    if list == [] then None
    else if list[0].id == id then Some(0)
    else
      var rest := FindId(list[1..], id);
      if rest.Some? then Some(rest.value + 1) else None
  }

  // nextTier()
  function NextTierOf(list: seq<Info>): nat {
    if list == [] then 0 else list[|list| - 1].tier + 1
  }

  lemma NextTierIsAbove(list: seq<Info>)
    requires Sorted(list)
    ensures forall t :: t in list ==> t.tier < NextTierOf(list)
    ensures NextTierOf(list) == 0 || exists t :: t in list && t.tier + 1 == NextTierOf(list)
  {
    assert list != [] ==> list[|list| - 1] in list;
    forall i | 0 <= i < |list|
      ensures list[i].tier < NextTierOf(list)
    {
      if i < |list| - 1 {
        assert InOrder(list, i, |list| - 1);
      }
    }
  }

  // ----- merging

  // How often the tier changes in the first i + 1 entries.
  function Rank(list: seq<Info>, i: nat): nat
    requires i < |list|
  {
    if i == 0 then 0 else Rank(list, i - 1) + if list[i].tier != list[i - 1].tier then 1 else 0
  }

  // In a sorted list ranks order entries as tiers do.
  lemma {:induction false} RankFollowsTier(list: seq<Info>, i: nat, j: nat)
    requires Sorted(list) && i <= j < |list|
    ensures list[i].tier <= list[j].tier && Rank(list, i) <= Rank(list, j)
    ensures list[i].tier == list[j].tier <==> Rank(list, i) == Rank(list, j)
    decreases j
  {
    if i < j {
      RankFollowsTier(list, i, j - 1);
      assert InOrder(list, j - 1, j);
    }
  }

  // An entry that came from src[i]: in the tier of its siblings in `old` if
  // there are any, else as far above `base` as in src.
  predicate CameFrom(urls: Parser, was: seq<Info>, src: seq<Info>, i: nat, base: nat, t: Info)
    requires i < |src|
  {
    t.announce == src[i].announce && t.parsed == src[i].parsed
    && t.tier == GetTier(urls, was, base + Rank(src, i), t.parsed)
  }

  ghost predicate Traced(urls: Parser, was: seq<Info>, src: seq<Info>, k: nat, base: nat, list: seq<Info>, t: Info)
    requires k <= |src|
  {
    t in list && t !in was ==> exists i :: 0 <= i < k && CameFrom(urls, was, src, i, base, t)
  }

  predicate Kept(was: seq<Info>, list: seq<Info>, t: Info) {
    t in was ==> t in list
  }

  ghost predicate Covered(list: seq<Info>, src: seq<Info>, i: nat)
    requires i < |src|
  {
    exists t :: t in list && Same(t.parsed, src[i].parsed)
  }

  // After the first k source entries: everything old is kept, everything new
  // can be traced to the source, and the source's URLs are covered.
  ghost predicate MergeState(urls: Parser, was: seq<Info>, src: seq<Info>, k: nat, base: nat, list: seq<Info>)
    requires k <= |src|
  {
    && (forall t :: Kept(was, list, t))
    && (forall t :: Traced(urls, was, src, k, base, list, t))
    && (forall i :: 0 <= i < k ==> Covered(list, src, i))
  }

  // A sibling met while merging does not change the tier a URL would get.
  lemma MergeTier(urls: Parser, was: seq<Info>, src: seq<Info>, k: nat, base: nat, list: seq<Info>)
    requires HostsInText(urls) && Good(urls, was) && Good(urls, src) && Good(urls, list) && k < |src|
    requires MergeState(urls, was, src, k, base, list)
    ensures GetTier(urls, list, base + Rank(src, k), src[k].parsed)
            == GetTier(urls, was, base + Rank(src, k), src[k].parsed)
  {
    var u, tier := src[k].parsed, base + Rank(src, k);
    if s :| s in was && Siblings(s.parsed, u) {
      assert Kept(was, list, s);
      TierOfSibling(urls, was, tier, u, s);
      TierOfSibling(urls, list, tier, u, s);
    } else {
      NoSiblingTier(urls, was, tier, u);
      if t :| t in list && Siblings(t.parsed, u) {
        assert Traced(urls, was, src, k, base, list, t);
        var i :| 0 <= i < k && CameFrom(urls, was, src, i, base, t);
        NewSibling(urls, was, src, i, k, base, t);
        TierOfSibling(urls, list, tier, u, t);
      } else {
        NoSiblingTier(urls, list, tier, u);
      }
    }
  }

  lemma NewSibling(urls: Parser, was: seq<Info>, src: seq<Info>, i: nat, k: nat, base: nat, t: Info)
    requires HostsInText(urls) && Good(urls, was) && Good(urls, src) && i < k < |src|
    requires CameFrom(urls, was, src, i, base, t) && Siblings(t.parsed, src[k].parsed)
    requires forall s :: s in was ==> !Siblings(s.parsed, src[k].parsed)
    ensures t.tier == base + Rank(src, k)
  {
    NoSiblingTier(urls, was, base + Rank(src, i), t.parsed);
    assert OneTier(src, src[i], src[k]);
    RankFollowsTier(src, i, k);
  }

  lemma TierOfSibling(urls: Parser, list: seq<Info>, tier: nat, u: Url, t: Info)
    requires HostsInText(urls) && AllGenuine(urls, list) && SharedTiers(list) && t in list && Siblings(t.parsed, u)
    ensures GetTier(urls, list, tier, u) == t.tier
  {
    GetTierIsSiblings(urls, list, tier, u);
  }

  lemma NoSiblingTier(urls: Parser, list: seq<Info>, tier: nat, u: Url)
    requires HostsInText(urls) && AllGenuine(urls, list) && SharedTiers(list)
    requires forall t :: t in list ==> !Siblings(t.parsed, u)
    ensures GetTier(urls, list, tier, u) == tier
  {
    GetTierIsSiblings(urls, list, tier, u);
  }

  // What Added does, without its tests.
  lemma AddedCases(urls: Parser, list: seq<Info>, text: string, tier: nat, id: nat) returns (p: nat)
    requires HostsInText(urls) && AllGenuine(urls, list) && ParseTracker(urls, text).Some?
    ensures var u := ParseTracker(urls, text).value;
            match Added(urls, list, text, tier, id)
            case None => exists t :: t in list && Same(t.parsed, u)
            case Some(r) => p <= |list| && r == Insert(list, p, NewInfo(urls, list, text, tier, id))
  {
    p := LowerBound(list, NewInfo(urls, list, text, tier, id));
    CanAddIsNoDuplicate(urls, list, ParseTracker(urls, text).value);
  }

  // What one more source entry makes of the list.
  lemma MergeStep(urls: Parser, was: seq<Info>, src: seq<Info>, k: nat, base: nat, list: seq<Info>, id: nat, tier: nat)
    returns (next: seq<Info>)
    requires HostsInText(urls) && Good(urls, was) && Good(urls, src) && Good(urls, list) && k < |src|
    requires MergeState(urls, was, src, k, base, list) && tier == base + Rank(src, k)
    ensures var added := Added(urls, list, src[k].announce, tier, id);
            next == (if added.Some? then added.value else list) && MergeState(urls, was, src, k + 1, base, next)
  {
    assert Genuine(urls, src[k]);
    var p := AddedCases(urls, list, src[k].announce, tier, id);
    var added := Added(urls, list, src[k].announce, tier, id);
    if added == None {
      MergeSkip(urls, was, src, k, base, list);
      next := list;
    } else {
      MergeTier(urls, was, src, k, base, list);
      MergeInsert(urls, was, src, k, base, list, p, NewInfo(urls, list, src[k].announce, tier, id));
      next := added.value;
    }
  }

  lemma MergeSkip(urls: Parser, was: seq<Info>, src: seq<Info>, k: nat, base: nat, list: seq<Info>)
    requires AllGenuine(urls, was) && k < |src| && MergeState(urls, was, src, k, base, list)
    requires Covered(list, src, k)
    ensures MergeState(urls, was, src, k + 1, base, list)
  {
    var next := k + 1;
    forall t
      ensures Traced(urls, was, src, next, base, list, t)
    {
      assert Traced(urls, was, src, k, base, list, t);
    }
  }

  lemma MergeInsert(urls: Parser, was: seq<Info>, src: seq<Info>, k: nat, base: nat, list: seq<Info>, p: nat, x: Info)
    requires AllGenuine(urls, was) && k < |src| && p <= |list| && MergeState(urls, was, src, k, base, list)
    requires CameFrom(urls, was, src, k, base, x)
    ensures MergeState(urls, was, src, k + 1, base, Insert(list, p, x))
  {
    var r := Insert(list, p, x);
    forall t
      ensures Kept(was, r, t)
    {
      assert Kept(was, list, t);
      InsertHas(list, p, x, t);
    }
    var next := k + 1;
    forall t
      ensures Traced(urls, was, src, next, base, r, t)
    {
      assert Traced(urls, was, src, k, base, list, t);
      InsertHas(list, p, x, t);
      if t == x {
        assert CameFrom(urls, was, src, k, base, t);
      }
    }
    forall i | 0 <= i < k + 1
      ensures Covered(r, src, i)
    {
      if i < k {
        assert Covered(list, src, i);
        var t :| t in list && Same(t.parsed, src[i].parsed);
        InsertHas(list, p, x, t);
      } else {
        assert x in r && Same(x.parsed, src[i].parsed);
      }
    }
  }

  // A new entry that takes the replaced one's tier unless siblings remain.
  ghost predicate ReplacesEntry(was: seq<Info>, id: nat, text: string, x: Info) {
    && x !in was && x.announce == text
    && forall r :: r in was && r.id == id
                   && (forall s :: s in was && SharesHostAndPath(s.parsed, x.parsed) ==> s.id == id) ==>
                     x.tier == r.tier
  }

  // ----- the class

  // The function-local counter of next_unique_id(), shared by all lists.
  class IdCounter {
    var next: nat

    constructor ()
      ensures next == 0
    {
      next := 0;
    }

    method Next() returns (id: nat)
      modifies this
      ensures id == old(next) && next == old(next) + 1
    {
      id := next;
      next := next + 1;
    }
  }

  class TrackerList {
    const urls: Parser
    const ids: IdCounter
    var trackers: seq<Info>

    ghost predicate Valid()
      reads this, ids
    {
      HostsInText(urls) && Good(urls, trackers) && forall t :: t in trackers ==> t.id < ids.next
    }

    constructor (urls: Parser, ids: IdCounter)
      requires HostsInText(urls)
      ensures Valid() && trackers == [] && this.urls == urls && this.ids == ids
    {
      this.urls, this.ids, trackers := urls, ids, [];
    }

    // Adds a URL that parses and is no duplicate, in its siblings' tier if it
    // has siblings.
    method Add(text: string, tier: nat) returns (ok: bool)
      requires Valid()
      modifies this`trackers, ids
      ensures Valid()
      ensures ok <==> Addable(urls, old(trackers), text)
      ensures var r := Added(urls, old(trackers), text, tier, old(ids.next));
              && ok == r.Some? && trackers == (if ok then r.value else old(trackers))
              && ids.next == old(ids.next) + if ok then 1 else 0
    {
      AddedMeaning(urls, trackers, text, tier, ids.next);
      var u := ParseTracker(urls, text);
      if u == None || !CanAdd(urls, trackers, u.value) {
        return false;
      }
      AddedGood(urls, trackers, text, tier, ids.next);
      ghost var x := NewInfo(urls, trackers, text, tier, ids.next);
      var tracker := Info(text, "", u.value, 0, 0);
      tracker := tracker.(tier := GetTier(urls, trackers, tier, u.value));
      var id := ids.Next();
      tracker := tracker.(id := id);
      var scrape := ScrapeOf(tracker.announce);
      if scrape.Some? {
        tracker := tracker.(scrape := scrape.value);
      }
      assert tracker == x;
      var it := LowerBound(trackers, tracker);
      forall t | t in Insert(trackers, it, tracker)
        ensures t.id < ids.next
      {
        InsertHas(trackers, it, tracker, t);
      }
      trackers := Insert(trackers, it, tracker);
      return true;
    }

    // add(announce_url): in a tier of its own.
    method AddLast(text: string) returns (ok: bool)
      requires Valid()
      modifies this`trackers, ids
      ensures Valid()
      ensures var r := Added(urls, old(trackers), text, NextTierOf(old(trackers)), old(ids.next));
              ok == r.Some? && trackers == if ok then r.value else old(trackers)
    {
      ok := Add(text, NextTierOf(trackers));
    }

    // One round of add(src).
    method AddFrom(ghost was: seq<Info>, src: seq<Info>, i: nat, ghost base: nat, tier: nat)
      requires Valid() && Good(urls, was) && Good(urls, src) && i < |src| && tier == base + Rank(src, i)
      requires MergeState(urls, was, src, i, base, trackers)
      modifies this`trackers, ids
      ensures Valid() && ids.next >= old(ids.next) && MergeState(urls, was, src, i + 1, base, trackers)
      ensures src[i] in old(trackers) ==> trackers == old(trackers)
    {
      assert Genuine(urls, src[i]);
      ghost var next := MergeStep(urls, was, src, i, base, trackers, ids.next, tier);
      var _ := Add(src[i].announce, tier);
      assert trackers == next;
    }

    // add(src): nothing old is lost, every source URL is there up to duplicates,
    // and new URLs keep the source's tiers above the old ones unless an old
    // sibling claims them. Merging a list into itself changes nothing.
    method AddAll(src: TrackerList)
      requires Valid() && src.Valid() && src.urls == urls && src.ids == ids
      modifies this`trackers, ids
      ensures Valid() && src.Valid()
      ensures MergeState(urls, old(trackers), src.trackers, |src.trackers|, NextTierOf(old(trackers)), trackers)
      ensures src.trackers == old(src.trackers)
    {
      if src.trackers == [] {
        return;
      }
      ghost var base, first := NextTierOf(trackers), ids.next;
      var srcTier := src.trackers[0].tier;
      var tgtTier := NextTierOf(trackers);
      for i := 0 to |src.trackers|
        invariant Valid() && src.trackers == old(src.trackers) && ids.next >= first
        invariant i == 0 ==> srcTier == src.trackers[0].tier && tgtTier == base && trackers == old(trackers)
        invariant i > 0 ==> srcTier == src.trackers[i - 1].tier && tgtTier == base + Rank(src.trackers, i - 1)
        invariant MergeState(urls, old(trackers), src.trackers, i, base, trackers)
      {
        var tracker := src.trackers[i];
        if srcTier != tracker.tier {
          srcTier := tracker.tier;
          tgtTier := tgtTier + 1;
        }
        AddFrom(old(trackers), src.trackers, i, base, tgtTier);
      }
    }

    method RemoveUrl(announce: string) returns (ok: bool)
      requires Valid()
      modifies this`trackers
      ensures Valid() && (ok <==> exists t :: t in old(trackers) && t.announce == announce)
      ensures !ok ==> trackers == old(trackers)
      ensures forall t :: t in trackers <==> t in old(trackers) && t.announce != announce
    {
      var it := FindText(trackers, announce);
      if it == None {
        return false;
      }
      assert trackers[it.value] in trackers;
      WithoutGood(urls, trackers, it.value);
      OneText(urls, trackers, it.value);
      trackers := Without(trackers, it.value);
      return true;
    }

    method RemoveId(id: nat) returns (ok: bool)
      requires Valid()
      modifies this`trackers
      ensures Valid() && (ok <==> exists t :: t in old(trackers) && t.id == id)
      ensures !ok ==> trackers == old(trackers)
      ensures forall t :: t in trackers <==> t in old(trackers) && t.id != id
    {
      var it := FindId(trackers, id);
      if it == None {
        return false;
      }
      assert trackers[it.value] in trackers;
      WithoutGood(urls, trackers, it.value);
      OneId(trackers, it.value);
      trackers := Without(trackers, it.value);
      return true;
    }

    // All or nothing: on success the entry with that id is gone and one with
    // the new URL is there; otherwise nothing happens.
    method Replace(id: nat, text: string) returns (ok: bool)
      requires Valid()
      modifies this`trackers, ids
      ensures Valid()
      ensures ok <==> Addable(urls, old(trackers), text)
                      && (exists t :: t in old(trackers) && t.id == id)
      ensures !ok ==> trackers == old(trackers)
      ensures ok ==> |trackers| == |old(trackers)|
                     && (forall t :: t in old(trackers) && t.id != id ==> t in trackers)
                     && (exists x :: x in trackers && ReplacesEntry(old(trackers), id, text, x))
                     && (forall t :: t in trackers ==> t.id != id)
    {
      var u := ParseTracker(urls, text);
      if u.Some? {
        CanAddIsNoDuplicate(urls, trackers, u.value);
      }
      if u == None || !CanAdd(urls, trackers, u.value) {
        return false;
      }
      var it := FindId(trackers, id);
      if it == None {
        return false;
      }
      var tier := trackers[it.value].tier;
      assert trackers[it.value] in trackers;
      WithoutGood(urls, trackers, it.value);
      OneId(trackers, it.value);
      trackers := Without(trackers, it.value);
      ghost var left, next := trackers, ids.next;
      GetTierIsSiblings(urls, left, tier, u.value);
      ok := Add(text, tier);
      assert ok;
      ghost var x := NewInfo(urls, left, text, tier, next);
      forall t
        ensures t in trackers <==> t == x || t in left
      {
        InsertHas(left, LowerBound(left, x), x, t);
      }
      assert ReplacesEntry(old(trackers), id, text, x);
    }

    method Clear()
      requires Valid()
      modifies this`trackers
      ensures Valid() && trackers == []
    {
      trackers := [];
    }
  }

  lemma OneText(urls: Parser, list: seq<Info>, i: nat)
    requires AllGenuine(urls, list) && Distinct(list) && i < |list|
    ensures forall t :: t in list && t.announce == list[i].announce ==> t == list[i]
  {
    forall t | t in list && t.announce == list[i].announce
      ensures t == list[i]
    {
      var j :| 0 <= j < |list| && list[j] == t;
      assert Genuine(urls, list[j]) && Genuine(urls, list[i]);
      assert j < i ==> Differ(list, j, i);
      assert i < j ==> Differ(list, i, j);
    }
  }

  lemma OneId(list: seq<Info>, i: nat)
    requires Distinct(list) && i < |list|
    ensures forall t :: t in list && t.id == list[i].id ==> t == list[i]
  {
    forall t | t in list && t.id == list[i].id
      ensures t == list[i]
    {
      var j :| 0 <= j < |list| && list[j] == t;
      assert j < i ==> Differ(list, j, i);
      assert i < j ==> Differ(list, i, j);
    }
  }
}
