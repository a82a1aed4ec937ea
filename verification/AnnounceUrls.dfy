// What the announce list knows of URLs and of their order
// (libtransmission/announce-list.h and announce-list.cc). The URL parser is a
// parameter; all that is asked of it is that the host is part of the text.
module AnnounceUrls {
  import opened Options

  datatype Url = Url(scheme: string, host: string, port: nat, path: string, query: string)

  type Parser = string -> Option<Url>

  predicate OccursAt(text: string, key: string, i: int) {
    0 <= i <= |text| - |key| && text[i..i + |key|] == key
  }

  // std::string_view::find() != npos
  predicate Contains(text: string, key: string) {
    exists i :: 0 <= i <= |text| && OccursAt(text, key, i)
  }

  ghost predicate HostsInText(urls: Parser) {
    forall text: string :: urls(text).Some? ==> Contains(text, urls(text).value.host)
  }

  predicate TrackerScheme(scheme: string) {
    scheme == "http" || scheme == "https" || scheme == "udp"
  }

  // tr_urlParseTracker()
  function ParseTracker(urls: Parser, text: string): Option<Url> {
    var u := urls(text);
    if u.Some? && TrackerScheme(u.value.scheme) then u else None
  }

  // Equal in all that tells two announce URLs apart.
  predicate Same(a: Url, b: Url) {
    a.scheme == b.scheme && a.host == b.host && a.port == b.port && a.path == b.path && a.query == b.query
  }

  // The same tracker by another scheme, port or query.
  predicate Siblings(a: Url, b: Url) {
    a.host == b.host && a.path == b.path
  }

  // ----- the scrape URL

  function LastSlash(text: string): (r: Option<nat>)
    ensures r.Some? ==> r.value < |text| && text[r.value] == '/' && '/' !in text[r.value + 1..]
    ensures r.None? ==> '/' !in text
  {
    if text == "" then None
    else if text[|text| - 1] == '/' then Some(|text| - 1)
    else
      var r := LastSlash(text[..|text| - 1]);
      assert text == text[..|text| - 1] + [text[|text| - 1]];
      assert r.Some? ==> text[r.value + 1..] == text[..|text| - 1][r.value + 1..] + [text[|text| - 1]];
      r
  }

  // announce_to_scrape()
  function ScrapeOf(announce: string): Option<string> {
    var pos := LastSlash(announce);
    if pos.Some? && "/announce" <= announce[pos.value..] then
      Some(announce[..pos.value] + "/scrape" + announce[pos.value + 9..])
    else if "udp:" <= announce then Some(announce)
    else None
  }

  lemma {:induction false} LastSlashOf(before: string, after: string)
    requires '/' !in after
    ensures LastSlash(before + "/" + after) == Some(|before|)
  {
    var text := before + "/" + after;
    if after == "" {
      assert text[|text| - 1] == '/';
    } else {
      var init := after[..|after| - 1];
      assert text[..|text| - 1] == before + "/" + init;
      assert text[|text| - 1] == after[|after| - 1];
      LastSlashOf(before, init);
    }
  }

  predicate ByConvention(announce: string, before: string, after: string) {
    '/' !in after && announce == before + "/announce" + after
  }

  // The scrape convention: "announce" at the start of the last path segment
  // becomes "scrape".
  lemma ScrapeByConvention(announce: string, before: string, after: string)
    requires ByConvention(announce, before, after)
    ensures ScrapeOf(announce) == Some(before + "/scrape" + after)
  {
    assert announce == before + "/" + ("announce" + after);
    LastSlashOf(before, "announce" + after);
    assert announce[|before|..] == "/announce" + after && announce[..|before|] == before;
    assert announce[|before| + 9..] == after;
    assert "/announce" <= "/announce" + after;
  }

  ghost predicate Conventional(announce: string) {
    exists before, after :: ByConvention(announce, before, after)
  }

  // Without it only a UDP tracker is scraped, at its own URL.
  lemma ScrapeOtherwise(announce: string)
    ensures Conventional(announce) || ScrapeOf(announce) == if "udp:" <= announce then Some(announce) else None
  {
    var pos := LastSlash(announce);
    if pos.Some? && "/announce" <= announce[pos.value..] {
      ConventionFound(announce, pos.value);
    }
  }

  lemma ConventionFound(announce: string, i: nat)
    requires i < |announce| && '/' !in announce[i + 1..] && "/announce" <= announce[i..]
    ensures Conventional(announce)
  {
    var before, tail := announce[..i], announce[i..];
    var after := tail[9..];
    assert tail == "/announce" + after;
    assert after == announce[i + 1..][8..];
    assert announce == before + tail;
    assert before + ("/announce" + after) == before + "/announce" + after;
    assert ByConvention(announce, before, after);
  }

  // What the source documents of a scrape URL: by convention, or a UDP tracker's
  // own URL, or none.
  ghost predicate ScrapeIs(announce: string, scrape: string) {
    && (forall before, after {:trigger ByConvention(announce, before, after)} ::
          '/' !in after && announce == before + "/announce" + after ==> scrape == before + "/scrape" + after)
    && (!Conventional(announce) ==> scrape == if "udp:" <= announce then announce else "")
  }

  lemma ScrapeOfIs(announce: string)
    ensures ScrapeIs(announce, if ScrapeOf(announce).Some? then ScrapeOf(announce).value else "")
  {
    forall before, after | ByConvention(announce, before, after)
      ensures ScrapeOf(announce) == Some(before + "/scrape" + after)
    {
      ScrapeByConvention(announce, before, after);
    }
    ScrapeOtherwise(announce);
  }
}
