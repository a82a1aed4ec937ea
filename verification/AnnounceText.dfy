// Reading and writing announce lists as text: one URL a line, a blank line
// between tiers (libtransmission/announce-list.cc).
module AnnounceText {
  import opened Options
  import opened Text
  import opened AnnounceUrls
  import opened AnnounceList

  // ----- lines

  function LineEnd(text: string): (r: nat)
    ensures r <= |text|
  {
    if text == "" || text[0] == '\n' then 0 else 1 + LineEnd(text[1..])
  }

  // What is left after tr_strv_sep() has taken a line off.
  function AfterLine(text: string): string {
    var e := LineEnd(text);
    if e < |text| then text[e + 1..] else ""
  }

  predicate OneLine(text: string) {
    '\n' !in text
  }

  predicate CleanLine(line: string) {
    OneLine(line) && Stripped(line)
  }

  ghost predicate CleanLines(lines: seq<string>) {
    forall i {:trigger CleanLine(lines[i])} :: 0 <= i < |lines| ==> CleanLine(lines[i])
  }

  // A line without its CR and its outer white space.
  function Clean(line: string): string {
    Strip(if line != "" && line[|line| - 1] == '\r' then line[..|line| - 1] else line)
  }

  function Lines(text: string): seq<string>
    decreases |text|
  {
    if text == "" then [] else [Clean(text[..LineEnd(text)])] + Lines(AfterLine(text))
  }

  lemma {:induction false} LineEndIsFirst(text: string)
    ensures OneLine(text[..LineEnd(text)])
  {
    if text != "" && text[0] != '\n' {
      LineEndIsFirst(text[1..]);
      assert text[..LineEnd(text)] == [text[0]] + text[1..][..LineEnd(text[1..])];
    }
  }

  lemma {:induction false} LinesAreLines(text: string)
    ensures CleanLines(Lines(text))
    decreases |text|
  {
    if text != "" {
      LineEndIsFirst(text);
      CleanIsClean(text[..LineEnd(text)]);
      var rest := Lines(AfterLine(text));
      LinesAreLines(AfterLine(text));
      forall i | 0 <= i < |Lines(text)|
        ensures CleanLine(Lines(text)[i])
      {
        if i > 0 {
          assert CleanLine(rest[i - 1]);
        }
      }
    }
  }

  lemma {:induction false} LineEndOf(line: string, rest: string)
    requires '\n' !in line
    ensures LineEnd(line + "\n" + rest) == |line|
  {
    var text := line + "\n" + rest;
    if line != "" {
      assert text[0] == line[0];
      assert text[1..] == line[1..] + "\n" + rest;
      LineEndOf(line[1..], rest);
    }
  }

  lemma LinesOf(line: string, rest: string)
    requires OneLine(line)
    ensures Lines(line + "\n" + rest) == [Clean(line)] + Lines(rest)
  {
    var text := line + "\n" + rest;
    LineEndOf(line, rest);
    assert text[..|line|] == line && text[|line| + 1..] == rest;
  }

  lemma CleanIsClean(line: string)
    requires OneLine(line)
    ensures CleanLine(Clean(line))
  {
    var l := if line != "" && line[|line| - 1] == '\r' then line[..|line| - 1] else line;
    var pre, post := StripSplits(l);
    forall i | 0 <= i < |Strip(l)|
      ensures Strip(l)[i] in l
    {
      assert (pre + Strip(l) + post)[|pre| + i] == Strip(l)[i];
    }
  }

  lemma CleanStripped(line: string)
    requires Stripped(line)
    ensures Clean(line) == line
  {
    StripStripped(line);
  }

  // A text is cut at its newlines, and every line is stripped; a last line needs
  // no newline.
  lemma LinesMeaning(line: string, rest: string)
    requires '\n' !in line
    ensures Lines("") == []
    ensures Lines(line + "\n" + rest) == [Strip(line)] + Lines(rest)
    ensures line != "" ==> Lines(line) == [Strip(line)]
  {
    LinesOf(line, rest);
    CleanIsStrip(line);
    if line != "" {
      NoLineEnd(line);
      assert line[..|line|] == line;
    }
  }

  lemma CleanIsStrip(line: string)
    ensures Clean(line) == Strip(line)
  {
    if line != "" && line[|line| - 1] == '\r' {
      StripSnoc(line[..|line| - 1], '\r');
      assert line == line[..|line| - 1] + ['\r'];
    }
  }

  lemma {:induction false} NoLineEnd(line: string)
    requires '\n' !in line
    ensures LineEnd(line) == |line|
  {
    if line != "" {
      NoLineEnd(line[1..]);
    }
  }

  // ----- parse()

  // add() as parse() uses it: a list, a URL, a tier and an id give a new list,
  // or nothing.
  type Adder = (seq<Info>, string, nat, nat) -> Option<seq<Info>>

  function AdderOf(urls: Parser): Adder {
    (list: seq<Info>, text: string, tier: nat, id: nat) => Added(urls, list, text, tier, id)
  }

  ghost predicate Adds(add: Adder, urls: Parser) {
    forall list, text, tier, id {:trigger add(list, text, tier, id), Added(urls, list, text, tier, id)} ::
      add(list, text, tier, id) == Added(urls, list, text, tier, id)
  }

  // The rest of parse() once it has reached `lines`.
  function ParseFrom(add: Adder, list: seq<Info>, tier: nat, size: nat, id: nat, lines: seq<string>)
    : Option<(seq<Info>, nat)>
    decreases |lines|
  {
    if lines == [] then Some((list, id))
    else if lines[0] == "" then
      if size > 0 then ParseFrom(add, list, tier + 1, 0, id, lines[1..])
      else ParseFrom(add, list, tier, size, id, lines[1..])
    else
      var added := add(list, lines[0], tier, id);
      if added == None then None
      else ParseFrom(add, added.value, tier, size + 1, id + 1, lines[1..])
  }

  // What parse() makes of a text; new entries get ids from `id` on.
  function ParseText(urls: Parser, text: string, id: nat): Option<seq<Info>> {
    var r := ParseFrom(AdderOf(urls), [], 0, 0, id, Lines(text));
    if r.Some? then Some(r.value.0) else None
  }

  lemma ParseBlank(add: Adder, list: seq<Info>, tier: nat, size: nat, id: nat, lines: seq<string>)
    requires lines != [] && lines[0] == ""
    ensures size > 0 ==>
              ParseFrom(add, list, tier, size, id, lines) == ParseFrom(add, list, tier + 1, 0, id, lines[1..])
    ensures size == 0 ==> ParseFrom(add, list, tier, size, id, lines) == ParseFrom(add, list, tier, 0, id, lines[1..])
  {
  }

  lemma ParseUrl(add: Adder, list: seq<Info>, tier: nat, size: nat, id: nat, lines: seq<string>)
    requires lines != [] && lines[0] != ""
    ensures match add(list, lines[0], tier, id)
            case None => ParseFrom(add, list, tier, size, id, lines) == None
            case Some(added) =>
              ParseFrom(add, list, tier, size, id, lines) == ParseFrom(add, added, tier, size + 1, id + 1, lines[1..])
  {
  }

  lemma AdderOfAdds(urls: Parser)
    ensures Adds(AdderOf(urls), urls)
  {
  }

  // One round of the loop in parse(), for a cleaned line.
  method TakeLine(scratch: TrackerList, line: string, tier: nat, size: nat, ghost add: Adder, ghost lines: seq<string>)
    returns (ok: bool, newTier: nat, newSize: nat)
    requires scratch.Valid() && Adds(add, scratch.urls) && lines != [] && line == lines[0]
    modifies scratch`trackers, scratch.ids
    ensures scratch.Valid()
    ensures var was := ParseFrom(add, old(scratch.trackers), tier, size, old(scratch.ids.next), lines);
            if ok then was == ParseFrom(add, scratch.trackers, newTier, newSize, scratch.ids.next, lines[1..])
            else was == None
    ensures old(scratch.ids.next) <= scratch.ids.next
  {
    ok, newTier, newSize := true, tier, size;
    if line == "" {
      ParseBlank(add, scratch.trackers, tier, size, scratch.ids.next, lines);
      if size > 0 {
        newTier := newTier + 1;
        newSize := 0;
      }
    } else {
      ParseUrl(add, scratch.trackers, tier, size, scratch.ids.next, lines);
      ok := scratch.Add(line, tier);
      newSize := newSize + 1;
    }
  }

  // tr_strv_sep() and the removal of a carriage return.
  method NextLine(text: string) returns (line: string, rest: string)
    requires text != ""
    ensures Lines(text)[0] == Strip(line) && Lines(text)[1..] == Lines(rest) && |rest| < |text|
  {
    line, rest := text[..LineEnd(text)], AfterLine(text);
    if line != "" && line[|line| - 1] == '\r' {
      line := line[..|line| - 1];
    }
  }

  // parse(): all of the text or nothing.
  method Parse(target: TrackerList, text: string) returns (ok: bool)
    requires target.Valid()
    modifies target`trackers, target.ids
    ensures target.Valid()
    ensures var r := ParseText(target.urls, text, old(target.ids.next));
            && ok == r.Some? && target.trackers == if ok then r.value else old(target.trackers)
  {
    var scratch := new TrackerList(target.urls, target.ids);
    ghost var add := AdderOf(target.urls);
    AdderOfAdds(target.urls);
    ghost var goal := ParseFrom(add, [], 0, 0, target.ids.next, Lines(text));
    var currentTier, currentTierSize := 0, 0;
    var rest := text;
    while rest != ""
      invariant scratch.Valid() && fresh(scratch) && scratch.urls == target.urls && scratch.ids == target.ids
      invariant target.Valid() && target.trackers == old(target.trackers)
      invariant goal == ParseFrom(add, scratch.trackers, currentTier, currentTierSize, scratch.ids.next, Lines(rest))
      decreases |rest|
    {
      ghost var lines := Lines(rest);
      var line, taken;
      line, rest := NextLine(rest);
      taken, currentTier, currentTierSize := TakeLine(scratch, Strip(line), currentTier, currentTierSize, add, lines);
      if !taken {
        return false;
      }
    }
    target.trackers := scratch.trackers;
    return true;
  }

  // ----- which texts are accepted

  predicate UrlAt(urls: Parser, lines: seq<string>, i: nat)
    requires i < |lines|
  {
    lines[i] != "" ==> IsTrackerUrl(urls, lines[i])
  }

  predicate IsTrackerUrl(urls: Parser, text: string) {
    urls(text).Some? && urls(text).value.scheme in {"http", "https", "udp"}
  }

  predicate SameUrl(urls: Parser, a: string, b: string) {
    && a != "" && b != "" && IsTrackerUrl(urls, a) && IsTrackerUrl(urls, b)
    && SameParts(urls(a).value, urls(b).value)
  }

  ghost predicate Clash(urls: Parser, list: seq<Info>, line: string) {
    exists t :: t in list && SameUrl(urls, t.announce, line)
  }

  ghost predicate Acceptable(urls: Parser, list: seq<Info>, lines: seq<string>) {
    && (forall i :: 0 <= i < |lines| ==> UrlAt(urls, lines, i))
    && (forall i, j :: 0 <= i < j < |lines| ==> !SameUrl(urls, lines[i], lines[j]))
    && (forall i :: 0 <= i < |lines| ==> !Clash(urls, list, lines[i]))
  }

  lemma ClashAdded(urls: Parser, list: seq<Info>, x: Info, p: nat, line: string)
    requires p <= |list|
    ensures Clash(urls, Insert(list, p, x), line) <==> Clash(urls, list, line) || SameUrl(urls, x.announce, line)
  {
    var r := Insert(list, p, x);
    InsertHas(list, p, x, x);
    if t :| t in list && SameUrl(urls, t.announce, line) {
      InsertHas(list, p, x, t);
    }
    if t :| t in r && SameUrl(urls, t.announce, line) {
      InsertHas(list, p, x, t);
    }
  }

  lemma AddedIffNoClash(urls: Parser, list: seq<Info>, line: string, tier: nat, id: nat)
    requires HostsInText(urls) && AllGenuine(urls, list) && line != "" && forall t :: t in list ==> t.announce != ""
    ensures Added(urls, list, line, tier, id).Some? <==> ParseTracker(urls, line).Some? && !Clash(urls, list, line)
  {
    var u := ParseTracker(urls, line);
    if u.Some? {
      CanAddIsNoDuplicate(urls, list, u.value);
      forall t | t in list
        ensures Same(t.parsed, u.value) <==> SameUrl(urls, t.announce, line)
      {
        assert Genuine(urls, t);
      }
    }
  }

  lemma {:induction false} AcceptedFrom(add: Adder, urls: Parser, list: seq<Info>, tier: nat, size: nat, id: nat,
                                        lines: seq<string>)
    requires HostsInText(urls) && Adds(add, urls) && AllGenuine(urls, list)
    requires forall t :: t in list ==> t.announce != ""
    ensures ParseFrom(add, list, tier, size, id, lines).Some? <==> Acceptable(urls, list, lines)
    decreases |lines|
  {
    if lines != [] {
      var line, rest := lines[0], lines[1..];
      if line == "" {
        ParseBlank(add, list, tier, size, id, lines);
        if size > 0 {
          AcceptedFrom(add, urls, list, tier + 1, 0, id, rest);
        } else {
          AcceptedFrom(add, urls, list, tier, 0, id, rest);
        }
        AcceptableBlank(urls, list, lines);
      } else {
        ParseUrl(add, list, tier, size, id, lines);
        AddedIffNoClash(urls, list, line, tier, id);
        if ParseTracker(urls, line).Some? && !Clash(urls, list, line) {
          var x := NewInfo(urls, list, line, tier, id);
          var added := Insert(list, LowerBound(list, x), x);
          forall t | t in added
            ensures t.announce != ""
          {
            InsertHas(list, LowerBound(list, x), x, t);
          }
          AcceptedFrom(add, urls, added, tier, size + 1, id + 1, rest);
          AcceptableUrl(urls, list, lines, LowerBound(list, x), x);
        } else {
          assert !UrlAt(urls, lines, 0) || Clash(urls, list, lines[0]);
        }
      }
    }
  }

  // Main result: a text is accepted exactly if all its nonblank lines are
  // tracker URLs and no two of them are the same.
  lemma AcceptedIff(urls: Parser, text: string, id: nat)
    requires HostsInText(urls)
    ensures ParseText(urls, text, id).Some? <==> Acceptable(urls, [], Lines(text))
  {
    AdderOfAdds(urls);
    AcceptedFrom(AdderOf(urls), urls, [], 0, 0, id, Lines(text));
  }

  lemma AcceptableBlank(urls: Parser, list: seq<Info>, lines: seq<string>)
    requires lines != [] && lines[0] == ""
    ensures Acceptable(urls, list, lines) <==> Acceptable(urls, list, lines[1..])
  {
    var rest := lines[1..];
    assert forall i :: 0 <= i < |rest| ==> rest[i] == lines[i + 1];
    if Acceptable(urls, list, lines) {
      forall i | 0 <= i < |rest|
        ensures UrlAt(urls, rest, i)
      {
        assert UrlAt(urls, lines, i + 1);
      }
    }
    if Acceptable(urls, list, rest) {
      forall i | 0 <= i < |lines|
        ensures UrlAt(urls, lines, i) && !Clash(urls, list, lines[i])
      {
        assert i > 0 ==> UrlAt(urls, rest, i - 1) && lines[i] == rest[i - 1];
      }
      forall i, j | 0 <= i < j < |lines|
        ensures !SameUrl(urls, lines[i], lines[j])
      {
        assert i > 0 ==> lines[i] == rest[i - 1] && lines[j] == rest[j - 1];
      }
    }
  }

  lemma AcceptableUrl(urls: Parser, list: seq<Info>, lines: seq<string>, p: nat, x: Info)
    requires lines != [] && lines[0] == x.announce && p <= |list|
    requires ParseTracker(urls, lines[0]).Some? && !Clash(urls, list, lines[0])
    ensures Acceptable(urls, list, lines) <==> Acceptable(urls, Insert(list, p, x), lines[1..])
  {
    var rest, added := lines[1..], Insert(list, p, x);
    forall i | 0 <= i < |rest|
      ensures rest[i] == lines[i + 1]
      ensures Clash(urls, added, rest[i]) <==> Clash(urls, list, rest[i]) || SameUrl(urls, lines[0], rest[i])
    {
      ClashAdded(urls, list, x, p, rest[i]);
    }
    if Acceptable(urls, list, lines) {
      forall i | 0 <= i < |rest|
        ensures UrlAt(urls, rest, i) && !Clash(urls, added, rest[i])
      {
        assert UrlAt(urls, lines, i + 1) && !Clash(urls, list, lines[i + 1]) && !SameUrl(urls, lines[0], lines[i + 1]);
      }
    }
    if Acceptable(urls, added, rest) {
      forall i | 0 <= i < |lines|
        ensures UrlAt(urls, lines, i) && !Clash(urls, list, lines[i])
      {
        assert i > 0 ==> UrlAt(urls, rest, i - 1) && !Clash(urls, added, rest[i - 1]) && lines[i] == rest[i - 1];
      }
      forall i, j | 0 <= i < j < |lines|
        ensures !SameUrl(urls, lines[i], lines[j])
      {
        assert !Clash(urls, added, rest[j - 1]) && lines[j] == rest[j - 1];
        assert i > 0 ==> lines[i] == rest[i - 1];
      }
    }
  }

  // ----- what a text is read as

  // How many tiers have ended before line k: a blank line after a URL ends one.
  function Breaks(lines: seq<string>, k: nat): nat
    requires k <= |lines|
  {
    if k == 0 then 0
    else Breaks(lines, k - 1) + if k > 1 && lines[k - 1] == "" && lines[k - 2] != "" then 1 else 0
  }

  function UrlsBefore(lines: seq<string>, k: nat): nat
    requires k <= |lines|
  {
    if k == 0 then 0 else UrlsBefore(lines, k - 1) + if lines[k - 1] != "" then 1 else 0
  }

  predicate Related(urls: Parser, lines: seq<string>, i: nat, j: nat)
    requires i < |lines| && j < |lines|
  {
    && lines[i] != "" && lines[j] != "" && urls(lines[i]).Some? && urls(lines[j]).Some?
    && urls(lines[i]).value.host == urls(lines[j]).value.host && urls(lines[i]).value.path == urls(lines[j]).value.path
  }

  // Line j is the first with the host and path of line i.
  predicate FirstRelated(urls: Parser, lines: seq<string>, i: nat, j: nat)
    requires i < |lines| && j < |lines|
  {
    Related(urls, lines, j, i) && forall k :: 0 <= k < j ==> !Related(urls, lines, k, i)
  }

  // The entry of line i: its id counts URLs, its tier is that of the first line
  // with its host and path.
  ghost predicate IsLine(urls: Parser, lines: seq<string>, i: nat, id: nat, t: Info)
    requires i < |lines|
  {
    && lines[i] != "" && t.announce == lines[i] && urls(lines[i]) == Some(t.parsed)
    && t.id == id + UrlsBefore(lines, i) && ScrapeIs(lines[i], t.scrape)
    && exists j :: 0 <= j <= i && FirstRelated(urls, lines, i, j) && t.tier == Breaks(lines, j)
  }

  ghost predicate HasLine(urls: Parser, lines: seq<string>, i: nat, id: nat, list: seq<Info>)
    requires i < |lines|
  {
    lines[i] != "" ==> exists t :: t in list && IsLine(urls, lines, i, id, t)
  }

  ghost predicate FromLine(urls: Parser, lines: seq<string>, k: nat, id: nat, t: Info)
    requires k <= |lines|
  {
    exists i :: 0 <= i < k && IsLine(urls, lines, i, id, t)
  }

  // The list holds the first k lines.
  ghost predicate Holds(urls: Parser, lines: seq<string>, k: nat, id: nat, list: seq<Info>)
    requires k <= |lines|
  {
    && |list| == UrlsBefore(lines, k)
    && (forall i :: 0 <= i < k ==> HasLine(urls, lines, i, id, list))
    && (forall t :: t in list ==> FromLine(urls, lines, k, id, t))
  }

  lemma HoldsBlank(urls: Parser, lines: seq<string>, k: nat, id: nat, list: seq<Info>)
    requires k < |lines| && lines[k] == "" && Holds(urls, lines, k, id, list)
    ensures Holds(urls, lines, k + 1, id, list)
  {
    assert HasLine(urls, lines, k, id, list);
    forall t | t in list
      ensures FromLine(urls, lines, k + 1, id, t)
    {
      assert FromLine(urls, lines, k, id, t);
    }
  }

  // Being related is an equivalence, so related lines have the same first one.
  lemma SameFirst(urls: Parser, lines: seq<string>, i: nat, k: nat, j: nat)
    requires i < |lines| && k < |lines| && j < |lines| && Related(urls, lines, i, k) && FirstRelated(urls, lines, i, j)
    ensures FirstRelated(urls, lines, k, j)
  {
    forall m | 0 <= m < j
      ensures !Related(urls, lines, m, k)
    {
      assert !Related(urls, lines, m, i);
    }
  }

  lemma SiblingLine(urls: Parser, lines: seq<string>, k: nat, id: nat, t: Info, x: Info) returns (j: nat)
    requires k < |lines| && lines[k] != "" && urls(lines[k]) == Some(x.parsed) && FromLine(urls, lines, k, id, t)
    requires SharesHostAndPath(t.parsed, x.parsed)
    ensures j <= k && FirstRelated(urls, lines, k, j) && t.tier == Breaks(lines, j)
  {
    var i :| 0 <= i < k && IsLine(urls, lines, i, id, t);
    j :| 0 <= j <= i && FirstRelated(urls, lines, i, j) && t.tier == Breaks(lines, j);
    SameFirst(urls, lines, i, k, j);
  }

  lemma NoSiblingLine(urls: Parser, lines: seq<string>, k: nat, id: nat, list: seq<Info>, x: Info)
    requires k < |lines| && lines[k] != "" && urls(lines[k]) == Some(x.parsed) && Holds(urls, lines, k, id, list)
    requires forall t :: t in list ==> !SharesHostAndPath(t.parsed, x.parsed)
    ensures FirstRelated(urls, lines, k, k)
  {
    forall i | 0 <= i < k
      ensures !Related(urls, lines, i, k)
    {
      assert HasLine(urls, lines, i, id, list);
      if lines[i] != "" {
        var t :| t in list && IsLine(urls, lines, i, id, t);
        assert !SharesHostAndPath(t.parsed, x.parsed);
      }
    }
  }

  // The tier of the next line's entry.
  lemma NextEntry(urls: Parser, lines: seq<string>, k: nat, id: nat, list: seq<Info>, x: Info)
    requires k < |lines| && lines[k] != "" && Holds(urls, lines, k, id, list)
    requires IsEntry(urls, list, lines[k], Breaks(lines, k), id + UrlsBefore(lines, k), x)
    ensures IsLine(urls, lines, k, id, x)
  {
    var j := k;
    if t :| t in list && SharesHostAndPath(t.parsed, x.parsed) {
      j := SiblingLine(urls, lines, k, id, t, x);
    } else {
      NoSiblingLine(urls, lines, k, id, list, x);
    }
    assert FirstRelated(urls, lines, k, j) && x.tier == Breaks(lines, j);
  }

  lemma HoldsUrl(urls: Parser, lines: seq<string>, k: nat, id: nat, list: seq<Info>, x: Info, r: seq<Info>)
    requires k < |lines| && Holds(urls, lines, k, id, list) && IsLine(urls, lines, k, id, x) && Places(list, x, r)
    ensures Holds(urls, lines, k + 1, id, r)
  {
    var p :| 0 <= p <= |list| && r == list[..p] + [x] + list[p..];
    forall t
      ensures t in r <==> t == x || t in list
    {
      InsertHas(list, p, x, t);
    }
    forall i | 0 <= i < k + 1
      ensures HasLine(urls, lines, i, id, r)
    {
      if i < k {
        assert HasLine(urls, lines, i, id, list);
      }
    }
    forall t | t in r
      ensures FromLine(urls, lines, k + 1, id, t)
    {
      assert t != x ==> FromLine(urls, lines, k, id, t);
    }
  }

  lemma HoldsAdded(urls: Parser, lines: seq<string>, k: nat, id: nat, list: seq<Info>, r: seq<Info>)
    requires HostsInText(urls) && k < |lines| && lines[k] != "" && Good(urls, list)
    requires Holds(urls, lines, k, id, list) && IdsBelow(list, id + UrlsBefore(lines, k))
    requires Added(urls, list, lines[k], Breaks(lines, k), id + UrlsBefore(lines, k)) == Some(r)
    ensures Good(urls, r) && Holds(urls, lines, k + 1, id, r) && IdsBelow(r, id + UrlsBefore(lines, k + 1))
  {
    var tier, next := Breaks(lines, k), id + UrlsBefore(lines, k);
    var x := EntryOf(urls, list, lines[k], tier, next, r);
    NextEntry(urls, lines, k, id, list, x);
    HoldsUrl(urls, lines, k, id, list, x, r);
    IdsGrow(list, x, r, next);
  }

  lemma EntryOf(urls: Parser, list: seq<Info>, text: string, tier: nat, id: nat, r: seq<Info>) returns (x: Info)
    requires HostsInText(urls) && Good(urls, list) && IdsBelow(list, id) && Added(urls, list, text, tier, id) == Some(r)
    ensures Good(urls, r) && IsEntry(urls, list, text, tier, id, x) && Places(list, x, r)
  {
    AddedMeaning(urls, list, text, tier, id);
    AddedGood(urls, list, text, tier, id);
    x :| IsEntry(urls, list, text, tier, id, x) && Places(list, x, r);
  }

  lemma {:induction false} ReadFrom(add: Adder, urls: Parser, lines: seq<string>, k: nat, id: nat, list: seq<Info>,
                                    size: nat)
    requires HostsInText(urls) && Adds(add, urls) && k <= |lines| && Good(urls, list)
    requires Holds(urls, lines, k, id, list) && IdsBelow(list, id + UrlsBefore(lines, k))
    requires size > 0 <==> k > 0 && lines[k - 1] != ""
    ensures var r := ParseFrom(add, list, Breaks(lines, k), size, id + UrlsBefore(lines, k), lines[k..]);
            r.Some? ==> Holds(urls, lines, |lines|, id, r.value.0)
    decreases |lines| - k
  {
    if k < |lines| {
      var tier, next, rest := Breaks(lines, k), id + UrlsBefore(lines, k), lines[k..];
      assert rest[0] == lines[k] && rest[1..] == lines[k + 1..];
      if lines[k] == "" {
        ParseBlank(add, list, tier, size, next, rest);
        HoldsBlank(urls, lines, k, id, list);
        ReadFrom(add, urls, lines, k + 1, id, list, 0);
      } else {
        ParseUrl(add, list, tier, size, next, rest);
        var added := add(list, lines[k], tier, next);
        if added.Some? {
          HoldsAdded(urls, lines, k, id, list, added.value);
          ReadFrom(add, urls, lines, k + 1, id, added.value, size + 1);
        }
      }
    }
  }

  lemma IdsGrow(list: seq<Info>, x: Info, r: seq<Info>, id: nat)
    requires IdsBelow(list, id) && x.id == id && Places(list, x, r)
    ensures IdsBelow(r, id + 1)
  {
    var p :| 0 <= p <= |list| && r == list[..p] + [x] + list[p..];
    forall t | t in r
      ensures t.id < id + 1
    {
      InsertHas(list, p, x, t);
    }
  }

  // Main result for reading: an accepted text gives one entry per nonblank line
  // and no other. A line's tier is the number of tiers ended before the first
  // line with its host and path.
  lemma ParseMeaning(urls: Parser, text: string, id: nat)
    requires HostsInText(urls) && ParseText(urls, text, id).Some?
    ensures Holds(urls, Lines(text), |Lines(text)|, id, ParseText(urls, text, id).value)
  {
    AdderOfAdds(urls);
    ReadAll(AdderOf(urls), urls, Lines(text), id);
  }

  lemma ReadAll(add: Adder, urls: Parser, lines: seq<string>, id: nat)
    requires HostsInText(urls) && Adds(add, urls)
    ensures var r := ParseFrom(add, [], 0, 0, id, lines); r.Some? ==> Holds(urls, lines, |lines|, id, r.value.0)
  {
    assert lines[0..] == lines;
    ReadFrom(add, urls, lines, 0, id, [], 0);
  }

  // ----- to_string()

  function PrintFrom(list: seq<Info>, i: nat): string
    requires i <= |list|
    decreases |list| - i
  {
    if i == |list| then ""
    else (if i > 0 && list[i].tier != list[i - 1].tier then "\n" else "")
         + (list[i].announce + "\n" + PrintFrom(list, i + 1))
  }

  lemma PrintStep(list: seq<Info>, i: nat, before: string)
    requires i < |list|
    ensures var start := if i > 0 && list[i].tier != list[i - 1].tier then before + "\n" else before;
            start + list[i].announce + "\n" + PrintFrom(list, i + 1) == before + PrintFrom(list, i)
  {
    var rest := list[i].announce + "\n" + PrintFrom(list, i + 1);
    if i > 0 && list[i].tier != list[i - 1].tier {
      assert before + "\n" + list[i].announce + "\n" + PrintFrom(list, i + 1) == before + ("\n" + rest);
    } else {
      assert before + list[i].announce + "\n" + PrintFrom(list, i + 1) == before + rest == before + ("" + rest);
    }
  }

  // What an entry at the end adds: its line, after a blank line if its tier
  // differs from the one before.
  function LastLines(list: seq<Info>, x: Info): string {
    (if list != [] && list[|list| - 1].tier != x.tier then "\n" else "") + (x.announce + "\n")
  }

  // Main result for printing.
  lemma {:induction false} PrintMeaning(list: seq<Info>, x: Info, k: nat)
    requires k <= |list|
    ensures PrintFrom([], 0) == "" && PrintFrom(list + [x], k) == PrintFrom(list, k) + LastLines(list, x)
    decreases |list| - k
  {
    var all := list + [x];
    if k == |list| {
      assert PrintFrom(all, k + 1) == "" && x.announce + "\n" + "" == x.announce + "\n";
    } else {
      PrintMeaning(list, x, k + 1);
      PrintTail(list[k].announce, PrintFrom(list, k + 1), LastLines(list, x));
    }
  }

  lemma PrintTail(announce: string, rest: string, tail: string)
    ensures announce + "\n" + (rest + tail) == (announce + "\n" + rest) + tail
    ensures "" + (announce + "\n" + (rest + tail)) == "" + (announce + "\n" + rest) + tail
    ensures "\n" + (announce + "\n" + (rest + tail)) == "\n" + (announce + "\n" + rest) + tail
  {
    assert announce + "\n" + (rest + tail) == (announce + "\n" + rest) + tail;
  }

  method ToString(source: TrackerList) returns (text: string)
    ensures text == PrintFrom(source.trackers, 0)
  {
    text := "";
    var currentTier: Option<nat> := None;
    for i := 0 to |source.trackers|
      invariant currentTier == if i == 0 then None else Some(source.trackers[i - 1].tier)
      invariant text + PrintFrom(source.trackers, i) == PrintFrom(source.trackers, 0)
    {
      var tracker := source.trackers[i];
      PrintStep(source.trackers, i, text);
      if currentTier.Some? && currentTier.value != tracker.tier {
        text := text + "\n";
      }
      text := text + tracker.announce;
      text := text + "\n";
      currentTier := Some(tracker.tier);
    }
    assert text + "" == text;
  }

  // ----- the printer and the parser

  predicate PrintableText(announce: string) {
    announce != "" && Stripped(announce) && OneLine(announce)
  }

  ghost predicate Printable(list: seq<Info>) {
    forall t {:trigger PrintableText(t.announce)} :: t in list ==> PrintableText(t.announce)
  }

  // The first k entries with tiers 0, 1, 2, ... and new ids.
  function Dense(list: seq<Info>, k: nat, id: nat): (r: seq<Info>)
    requires k <= |list|
    ensures |r| == k && forall i {:trigger r[i]} :: 0 <= i < k ==> r[i] == list[i].(tier := Rank(list, i), id := id + i)
  {
    seq(k, i requires 0 <= i < k => list[i].(tier := Rank(list, i), id := id + i))
  }

  lemma DenseGood(urls: Parser, list: seq<Info>, k: nat, id: nat)
    requires Good(urls, list) && k <= |list|
    ensures Good(urls, Dense(list, k, id))
  {
    var d := Dense(list, k, id);
    forall t | t in d
      ensures Genuine(urls, t)
    {
      var i :| 0 <= i < k && d[i] == t;
      assert Genuine(urls, list[i]);
    }
    forall i, j | 0 <= i < j < k
      ensures InOrder(d, i, j) && Differ(d, i, j)
    {
      assert InOrder(list, i, j) && Differ(list, i, j);
      RankFollowsTier(list, i, j);
    }
    forall s, t
      ensures OneTier(d, s, t)
    {
      if s in d && t in d {
        var i :| 0 <= i < k && d[i] == s;
        var j :| 0 <= j < k && d[j] == t;
        assert OneTier(list, list[i], list[j]);
        RankFollowsTier(list, if i < j then i else j, if i < j then j else i);
      }
    }
  }

  // Adding entry k again puts it last, in the tier of its rank.
  lemma DenseAdds(urls: Parser, list: seq<Info>, k: nat, id: nat)
    requires HostsInText(urls) && Good(urls, list) && k < |list|
    ensures Added(urls, Dense(list, k, id), list[k].announce, Rank(list, k), id + k) == Some(Dense(list, k + 1, id))
  {
    var d, t := Dense(list, k, id), list[k];
    DenseGood(urls, list, k, id);
    assert Genuine(urls, t);
    CanAddIsNoDuplicate(urls, d, t.parsed);
    forall s | s in d
      ensures !Same(s.parsed, t.parsed) && (Siblings(s.parsed, t.parsed) ==> s.tier == Rank(list, k))
    {
      var i :| 0 <= i < k && d[i] == s;
      assert Differ(list, i, k) && OneTier(list, list[i], list[k]);
      RankFollowsTier(list, i, k);
    }
    GetTierIsSiblings(urls, d, Rank(list, k), t.parsed);
    var x := NewInfo(urls, d, t.announce, Rank(list, k), id + k);
    assert x == t.(tier := Rank(list, k), id := id + k);
    forall i | 0 <= i < k
      ensures Less(d[i], x)
    {
      assert InOrder(list, i, k);
      RankFollowsTier(list, i, k);
    }
    LowerBoundIs(d, x);
    assert LowerBound(d, x) == k;
    assert Insert(d, k, x) == Dense(list, k + 1, id);
  }

  predicate StartsTier(list: seq<Info>, k: nat)
    requires k < |list|
  {
    k > 0 && list[k].tier != list[k - 1].tier
  }

  // The lines printed from entry k on: a blank one before each new tier, and
  // one per URL.
  predicate PrintedAs(list: seq<Info>, k: nat, lines: seq<string>)
    requires k <= |list|
    decreases |list| - k, 1
  {
    if k == |list| then lines == []
    else if StartsTier(list, k) then lines != [] && lines[0] == "" && UrlPrintedAs(list, k, lines[1..])
    else UrlPrintedAs(list, k, lines)
  }

  predicate UrlPrintedAs(list: seq<Info>, k: nat, lines: seq<string>)
    requires k < |list|
    decreases |list| - k, 0
  {
    lines != [] && lines[0] == list[k].announce && PrintedAs(list, k + 1, lines[1..])
  }

  lemma UrlLine(announce: string, tail: string)
    requires PrintableText(announce)
    ensures Lines(announce + "\n" + tail) == [announce] + Lines(tail)
  {
    LinesOf(announce, tail);
    CleanStripped(announce);
  }

  lemma BlankLine(tail: string)
    ensures Lines("\n" + tail) == [""] + Lines(tail)
  {
    LinesOf("", tail);
    CleanStripped("");
    assert "" + "\n" + tail == "\n" + tail;
  }

  lemma PrintFromIs(list: seq<Info>, k: nat)
    requires k < |list|
    ensures var rest := list[k].announce + "\n" + PrintFrom(list, k + 1);
            PrintFrom(list, k) == if StartsTier(list, k) then "\n" + rest else rest
  {
    var rest := list[k].announce + "\n" + PrintFrom(list, k + 1);
    assert "" + rest == rest;
  }

  lemma {:induction false} PrintedLines(list: seq<Info>, k: nat)
    requires k <= |list| && Printable(list)
    ensures PrintedAs(list, k, Lines(PrintFrom(list, k)))
    decreases |list| - k
  {
    if k < |list| {
      assert PrintableText(list[k].announce);
      PrintedLines(list, k + 1);
      PrintFromIs(list, k);
      PrintedEntry(list, k, PrintFrom(list, k + 1), PrintFrom(list, k));
    }
  }

  lemma PrintedEntry(list: seq<Info>, k: nat, tail: string, text: string)
    requires k < |list| && PrintableText(list[k].announce) && PrintedAs(list, k + 1, Lines(tail))
    requires var rest := list[k].announce + "\n" + tail; text == if StartsTier(list, k) then "\n" + rest else rest
    ensures PrintedAs(list, k, Lines(text))
  {
    var rest := list[k].announce + "\n" + tail;
    UrlLine(list[k].announce, tail);
    assert Lines(rest)[1..] == Lines(tail) && UrlPrintedAs(list, k, Lines(rest));
    if StartsTier(list, k) {
      BlankLine(rest);
      assert Lines(text)[1..] == Lines(rest);
    }
  }

  lemma ReadUrl(add: Adder, d: seq<Info>, e: seq<Info>, tier: nat, size: nat, id: nat, lines: seq<string>)
    requires lines != [] && lines[0] != "" && add(d, lines[0], tier, id) == Some(e)
    ensures ParseFrom(add, d, tier, size, id, lines) == ParseFrom(add, e, tier, size + 1, id + 1, lines[1..])
  {
    ParseUrl(add, d, tier, size, id, lines);
  }

  lemma ReadTier(add: Adder, d: seq<Info>, e: seq<Info>, tier: nat, size: nat, id: nat, all: seq<string>,
                 lines: seq<string>)
    requires lines != [] && lines[0] != ""
    requires size > 0 && all != [] && all[0] == "" && all[1..] == lines && add(d, lines[0], tier + 1, id) == Some(e)
    ensures ParseFrom(add, d, tier, size, id, all) == ParseFrom(add, e, tier + 1, 1, id + 1, lines[1..])
  {
    ParseBlank(add, d, tier, size, id, all);
    ReadUrl(add, d, e, tier + 1, 0, id, lines);
  }

  // Adding the entries again one by one gives the dense list.
  ghost predicate ReaddsAt(add: Adder, list: seq<Info>, id: nat, k: nat)
    requires k < |list|
  {
    list[k].announce != ""
      && add(Dense(list, k, id), list[k].announce, Rank(list, k), id + k) == Some(Dense(list, k + 1, id))
  }

  ghost predicate Readds(add: Adder, list: seq<Info>, id: nat) {
    forall k :: 0 <= k < |list| ==> ReaddsAt(add, list, id, k)
  }

  lemma ListReadds(add: Adder, urls: Parser, list: seq<Info>, id: nat)
    requires HostsInText(urls) && Adds(add, urls) && Good(urls, list) && Printable(list)
    ensures Readds(add, list, id)
  {
    forall k | 0 <= k < |list|
      ensures ReaddsAt(add, list, id, k)
    {
      DenseAdds(urls, list, k, id);
      assert PrintableText(list[k].announce);
    }
  }

  // One entry's lines, read with the first k entries already in.
  lemma ReadEntry(add: Adder, list: seq<Info>, k: nat, tier: nat, size: nat, id: nat, lines: seq<string>)
    returns (newSize: nat, rest: seq<string>)
    requires k < |list| && ReaddsAt(add, list, id, k) && PrintedAs(list, k, lines)
    requires if k > 0 then size > 0 && tier == Rank(list, k - 1) else tier == 0
    ensures newSize > 0 && PrintedAs(list, k + 1, rest)
    ensures ParseFrom(add, Dense(list, k, id), tier, size, id + k, lines)
            == ParseFrom(add, Dense(list, k + 1, id), Rank(list, k), newSize, id + k + 1, rest)
  {
    var d, e := Dense(list, k, id), Dense(list, k + 1, id);
    if StartsTier(list, k) {
      newSize, rest := 1, lines[1..][1..];
      ReadTier(add, d, e, tier, size, id + k, lines, lines[1..]);
    } else {
      newSize, rest := size + 1, lines[1..];
      ReadUrl(add, d, e, tier, size, id + k, lines);
    }
  }

  // Parsing the lines printed from entry k on.
  lemma {:induction false} Reparse(add: Adder, list: seq<Info>, k: nat, tier: nat, size: nat, id: nat,
                                   lines: seq<string>)
    requires Readds(add, list, id) && k <= |list| && PrintedAs(list, k, lines)
    requires if k > 0 then size > 0 && tier == Rank(list, k - 1) else tier == 0
    ensures ParseFrom(add, Dense(list, k, id), tier, size, id + k, lines)
            == Some((Dense(list, |list|, id), id + |list|))
    decreases |list| - k
  {
    if k < |list| {
      assert ReaddsAt(add, list, id, k);
      var newSize, rest := ReadEntry(add, list, k, tier, size, id, lines);
      Reparse(add, list, k + 1, Rank(list, k), newSize, id, rest);
    }
  }

  // Only stripped lines of text get into a parsed list.
  lemma {:induction false} ParsedIsPrintable(add: Adder, urls: Parser, list: seq<Info>, tier: nat, size: nat, id: nat,
                                             lines: seq<string>)
    requires HostsInText(urls) && Adds(add, urls) && Good(urls, list) && IdsBelow(list, id) && Printable(list)
             && CleanLines(lines)
    ensures var r := ParseFrom(add, list, tier, size, id, lines);
            r.Some? ==> Good(urls, r.value.0) && Printable(r.value.0)
    decreases |lines|
  {
    if lines != [] {
      var line, rest := lines[0], lines[1..];
      assert CleanLines(rest) by {
        forall i | 0 <= i < |rest|
          ensures CleanLine(rest[i])
        {
          assert CleanLine(lines[i + 1]);
        }
      }
      if line == "" {
        ParseBlank(add, list, tier, size, id, lines);
        if size > 0 {
          ParsedIsPrintable(add, urls, list, tier + 1, 0, id, rest);
        } else {
          ParsedIsPrintable(add, urls, list, tier, 0, id, rest);
        }
      } else {
        ParseUrl(add, list, tier, size, id, lines);
        var added := Added(urls, list, line, tier, id);
        if added.Some? {
          assert CleanLine(lines[0]);
          AddedPrintable(urls, list, line, tier, id);
          ParsedIsPrintable(add, urls, added.value, tier, size + 1, id + 1, rest);
        }
      }
    }
  }

  ghost predicate IdsBelow(list: seq<Info>, id: nat) {
    forall t :: t in list ==> t.id < id
  }

  lemma AddedPrintable(urls: Parser, list: seq<Info>, line: string, tier: nat, id: nat)
    requires HostsInText(urls) && Good(urls, list) && IdsBelow(list, id) && Printable(list) && PrintableText(line)
    requires Added(urls, list, line, tier, id).Some?
    ensures var r := Added(urls, list, line, tier, id).value; Good(urls, r) && IdsBelow(r, id + 1) && Printable(r)
  {
    var r := Added(urls, list, line, tier, id).value;
    AddedGood(urls, list, line, tier, id);
    var x := NewInfo(urls, list, line, tier, id);
    forall t | t in r
      ensures PrintableText(t.announce) && t.id < id + 1
    {
      InsertHas(list, LowerBound(list, x), x, t);
    }
  }

  // Renumbering the tiers does not show in the text.
  lemma {:induction false} PrintDense(list: seq<Info>, k: nat, id: nat)
    requires Sorted(list) && k <= |list|
    ensures PrintFrom(Dense(list, |list|, id), k) == PrintFrom(list, k)
    decreases |list| - k
  {
    if k < |list| {
      PrintDense(list, k + 1, id);
    }
  }

  lemma ParsedPrints(urls: Parser, text: string, id: nat)
    requires HostsInText(urls) && ParseText(urls, text, id).Some?
    ensures var list := ParseText(urls, text, id).value; Good(urls, list) && Printable(list)
  {
    AdderOfAdds(urls);
    LinesAreLines(text);
    ParsedIsPrintable(AdderOf(urls), urls, [], 0, 0, id, Lines(text));
  }

  lemma ReadsAgain(add: Adder, list: seq<Info>, id: nat)
    requires Readds(add, list, id) && Printable(list)
    ensures ParseFrom(add, [], 0, 0, id, Lines(PrintFrom(list, 0))) == Some((Dense(list, |list|, id), id + |list|))
  {
    PrintedLines(list, 0);
    Reparse(add, list, 0, 0, 0, id, Lines(PrintFrom(list, 0)));
    assert Dense(list, 0, id) == [];
  }

  lemma PrintedParses(urls: Parser, list: seq<Info>, id: nat)
    requires HostsInText(urls) && Good(urls, list) && Printable(list)
    ensures ParseText(urls, PrintFrom(list, 0), id) == Some(Dense(list, |list|, id))
  {
    var add := AdderOf(urls);
    AdderOfAdds(urls);
    ListReadds(add, urls, list, id);
    ReadsAgain(add, list, id);
  }

  lemma DenseSameEntries(list: seq<Info>, id: nat)
    requires Sorted(list)
    ensures forall i, j :: 0 <= i <= j < |list| ==> SameEntries(list, Dense(list, |list|, id), i, j)
  {
    forall i, j | 0 <= i <= j < |list|
      ensures SameEntries(list, Dense(list, |list|, id), i, j)
    {
      RankFollowsTier(list, i, j);
    }
  }

  // Entry for entry the same URLs in the same tiers, and the same text.
  ghost predicate SameList(list: seq<Info>, again: seq<Info>) {
    && |again| == |list| && PrintFrom(again, 0) == PrintFrom(list, 0)
    && forall i, j :: 0 <= i <= j < |list| ==> SameEntries(list, again, i, j)
  }

  lemma PrintParse(urls: Parser, list: seq<Info>, id: nat)
    requires HostsInText(urls) && Good(urls, list) && Printable(list)
    ensures var again := ParseText(urls, PrintFrom(list, 0), id);
            again.Some? && SameList(list, again.value)
  {
    PrintedParses(urls, list, id);
    PrintDense(list, 0, id);
    DenseSameEntries(list, id);
  }

  // Main result: what was read from any text prints to a text that reads back
  // as the same URLs in the same order and in the same tiers, now numbered
  // without gaps, and prints the same again.
  lemma PrintParseFixedPoint(urls: Parser, text: string, id: nat, newId: nat)
    requires HostsInText(urls) && ParseText(urls, text, id).Some?
    ensures var list := ParseText(urls, text, id).value;
            var again := ParseText(urls, PrintFrom(list, 0), newId);
            again.Some? && SameList(list, again.value)
  {
    ParsedPrints(urls, text, id);
    PrintParse(urls, ParseText(urls, text, id).value, newId);
  }

  // Entries i <= j of the two lists are the same URLs, in one tier here exactly
  // if they are in one there; tiers of the second list start at 0 and go up by
  // at most one.
  predicate SameEntries(list: seq<Info>, again: seq<Info>, i: nat, j: nat)
    requires i <= j < |list| == |again|
  {
    && again[i].announce == list[i].announce && again[i].parsed == list[i].parsed && again[i].scrape == list[i].scrape
    && (again[i].tier == again[j].tier <==> list[i].tier == list[j].tier)
    && (i == 0 ==> again[i].tier == 0)
    && (j == i + 1 ==> again[j].tier <= again[i].tier + 1)
  }
}
