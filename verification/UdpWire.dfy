// The bytes of the UDP tracker protocol, BEP 15 (libtransmission/announcer-udp.cc).
module UdpWire {
  import opened Options
  import opened Numbers
  import opened Verdict

  type Byte = b: int | 0 <= b < 256

  const UINT32: nat := 0x1_0000_0000
  const UINT64: nat := 0x1_0000_0000_0000_0000

  // Big-endian text of n in `width` bytes, higher bytes cut off.
  function Put(n: nat, width: nat): (r: seq<Byte>)
    ensures |r| == width
  {
    if width == 0 then [] else Put(n / 256, width - 1) + [n % 256]
  }

  function Get(bytes: seq<Byte>): nat {
    if bytes == [] then 0 else 256 * Get(bytes[..|bytes| - 1]) + bytes[|bytes| - 1]
  }

  function Pow256(width: nat): nat {
    if width == 0 then 1 else 256 * Pow256(width - 1)
  }

  lemma {:induction false} GetPut(n: nat, width: nat)
    requires n < Pow256(width)
    ensures Get(Put(n, width)) == n
  {
    if width > 0 {
      GetPut(n / 256, width - 1);
      var p := Put(n, width);
      assert p[..width - 1] == Put(n / 256, width - 1);
    }
  }

  lemma Widths()
    ensures Pow256(2) == 0x1_0000 && Pow256(4) == UINT32 && Pow256(8) == UINT64
  {
    assert Pow256(1) == 256 && Pow256(2) == 0x1_0000 && Pow256(3) == 0x100_0000;
    assert Pow256(5) == 256 * Pow256(4) && Pow256(6) == 256 * Pow256(5) && Pow256(7) == 256 * Pow256(6);
  }

  // A field of a known width reads back.
  lemma FieldReads(n: nat, width: nat, field: seq<Byte>)
    requires field == Put(n, width)
    requires width == 2 || width == 4 || width == 8
    requires n < if width == 2 then 0x1_0000 else if width == 4 then UINT32 else UINT64
    ensures Get(field) == n
  {
    Widths();
    GetPut(n, width);
  }

  // ----- announce request

  datatype AnnounceEvent = NoEvent | Completed | Started | Stopped

  datatype AnnounceRequest = AnnounceRequest(
    infoHash: seq<Byte>, peerId: seq<Byte>, down: nat, left: nat, up: nat,
    event: AnnounceEvent, key: nat, numwant: int, port: nat)

  ghost predicate InRange(r: AnnounceRequest) {
    && |r.infoHash| == 20 && |r.peerId| == 20
    && r.down < UINT64 && r.left < UINT64 && r.up < UINT64 && r.key < UINT32 && r.port < 0x1_0000
  }

  const ACTION_CONNECT := 0
  const ACTION_ANNOUNCE := 1
  const ACTION_SCRAPE := 2
  const ACTION_ERROR := 3
  const PROTOCOL_MAGIC := 0x41727101980

  // The connect request of upkeep().
  function ConnectDatagram(txn: nat): seq<Byte> {
    Put(PROTOCOL_MAGIC, 8) + Put(ACTION_CONNECT, 4) + Put(txn, 4)
  }

  // Decoding at the offsets of BEP 15's connect request table.
  lemma ConnectDecodes(txn: nat)
    requires txn < UINT32
    ensures var d := ConnectDatagram(txn);
            && |d| == 16
            && Get(d[0..8]) == 0x41727101980 && Get(d[8..12]) == 0 && Get(d[12..16]) == txn
  {
    var d := ConnectDatagram(txn);
    FieldReads(PROTOCOL_MAGIC, 8, d[0..8]);
    FieldReads(ACTION_CONNECT, 4, d[8..12]);
    FieldReads(txn, 4, d[12..16]);
  }

  function EventCode(e: AnnounceEvent): nat {
    match e
    case NoEvent => 0
    case Completed => 1
    case Started => 2
    case Stopped => 3
  }

  function Head(connId: nat, txn: nat): seq<Byte> {
    Put(connId, 8) + Put(ACTION_ANNOUNCE, 4) + Put(txn, 4)
  }

  function Ids(r: AnnounceRequest): seq<Byte> {
    r.infoHash + r.peerId
  }

  function Counters(r: AnnounceRequest): seq<Byte> {
    Put(r.down, 8) + Put(r.left, 8) + Put(r.up, 8)
  }

  // The IP field holds an IPv4 announce address or zero.
  function Tail(r: AnnounceRequest, ipv4: Option<seq<Byte>>): seq<Byte> {
    Put(EventCode(r.event), 4) + (if ipv4.Some? then ipv4.value else Put(0, 4)) + Put(r.key, 4)
    + Put(r.numwant % UINT32, 4) + Put(r.port, 2)
  }

  // maybe_send_request(): the connection ID, then tau_announce_request's payload.
  function AnnounceDatagram(connId: nat, txn: nat, r: AnnounceRequest, ipv4: Option<seq<Byte>>): seq<Byte> {
    Head(connId, txn) + Ids(r) + Counters(r) + Tail(r, ipv4)
  }

  // Decoding at the offsets of BEP 15's announce request table returns every
  // field of every request.
  lemma AnnounceDecodes(connId: nat, txn: nat, r: AnnounceRequest, ipv4: Option<seq<Byte>>)
    requires InRange(r) && connId < UINT64 && txn < UINT32 && (ipv4.Some? ==> |ipv4.value| == 4)
    ensures var d := AnnounceDatagram(connId, txn, r, ipv4);
            && |d| == 98
            && Get(d[0..8]) == connId && Get(d[8..12]) == 1 && Get(d[12..16]) == txn
            && d[16..36] == r.infoHash && d[36..56] == r.peerId
            && Get(d[56..64]) == r.down && Get(d[64..72]) == r.left && Get(d[72..80]) == r.up
            && Get(d[80..84])
               == (match r.event case NoEvent => 0 case Completed => 1 case Started => 2 case Stopped => 3)
            && (if ipv4.Some? then d[84..88] == ipv4.value else Get(d[84..88]) == 0)
            && Get(d[88..92]) == r.key && Get(d[92..96]) == r.numwant % 0x1_0000_0000 && Get(d[96..98]) == r.port
  {
    var d := AnnounceDatagram(connId, txn, r, ipv4);
    Sections(connId, txn, r, ipv4);
    HeadReads(connId, txn, d[0..16]);
    CountersRead(r, d[56..80]);
    TailReads(r, ipv4, d[80..98]);
    Subslices(d);
  }

  lemma Sections(connId: nat, txn: nat, r: AnnounceRequest, ipv4: Option<seq<Byte>>)
    requires InRange(r) && (ipv4.Some? ==> |ipv4.value| == 4)
    ensures var d := AnnounceDatagram(connId, txn, r, ipv4);
            && |d| == 98 && d[0..16] == Head(connId, txn) && d[56..80] == Counters(r) && d[80..98] == Tail(r, ipv4)
            && d[16..36] == r.infoHash && d[36..56] == r.peerId
  {
    var d := AnnounceDatagram(connId, txn, r, ipv4);
    FourParts(Head(connId, txn), Ids(r), Counters(r), Tail(r, ipv4));
    SliceOfSlice(d, 16, 56, 0, 20);
    SliceOfSlice(d, 16, 56, 20, 40);
  }

  lemma FourParts(head: seq<Byte>, ids: seq<Byte>, counters: seq<Byte>, tail: seq<Byte>)
    requires |head| == 16 && |ids| == 40 && |counters| == 24 && |tail| == 18
    ensures var d := head + ids + counters + tail;
            |d| == 98 && d[0..16] == head && d[16..56] == ids && d[56..80] == counters && d[80..98] == tail
  {
  }

  lemma SliceOfSlice(d: seq<Byte>, a: nat, b: nat, i: nat, j: nat)
    requires i <= j && a + j <= b <= |d|
    ensures d[a..b][i..j] == d[a + i..a + j]
  {
    var slice, whole := d[a..b][i..j], d[a + i..a + j];
    forall k | 0 <= k < j - i
      ensures slice[k] == whole[k]
    {
      assert slice[k] == d[a..b][i + k] == d[a + i + k];
    }
  }

  lemma Subslices(d: seq<Byte>)
    requires |d| == 98
    ensures d[0..8] == d[0..16][0..8] && d[8..12] == d[0..16][8..12] && d[12..16] == d[0..16][12..16]
    ensures d[56..64] == d[56..80][0..8] && d[64..72] == d[56..80][8..16] && d[72..80] == d[56..80][16..24]
    ensures d[80..84] == d[80..98][0..4] && d[84..88] == d[80..98][4..8] && d[88..92] == d[80..98][8..12]
    ensures d[92..96] == d[80..98][12..16] && d[96..98] == d[80..98][16..18]
  {
    SliceOfSlice(d, 0, 16, 0, 8);
    SliceOfSlice(d, 0, 16, 8, 12);
    SliceOfSlice(d, 0, 16, 12, 16);
    SliceOfSlice(d, 56, 80, 0, 8);
    SliceOfSlice(d, 56, 80, 8, 16);
    SliceOfSlice(d, 56, 80, 16, 24);
    SliceOfSlice(d, 80, 98, 0, 4);
    SliceOfSlice(d, 80, 98, 4, 8);
    SliceOfSlice(d, 80, 98, 8, 12);
    SliceOfSlice(d, 80, 98, 12, 16);
    SliceOfSlice(d, 80, 98, 16, 18);
  }

  lemma HeadReads(connId: nat, txn: nat, h: seq<Byte>)
    requires h == Head(connId, txn) && connId < UINT64 && txn < UINT32
    ensures |h| == 16 && Get(h[0..8]) == connId && Get(h[8..12]) == ACTION_ANNOUNCE && Get(h[12..16]) == txn
  {
    FieldReads(connId, 8, h[0..8]);
    FieldReads(ACTION_ANNOUNCE, 4, h[8..12]);
    FieldReads(txn, 4, h[12..16]);
  }

  lemma CountersRead(r: AnnounceRequest, c: seq<Byte>)
    requires c == Counters(r) && InRange(r)
    ensures |c| == 24 && Get(c[0..8]) == r.down && Get(c[8..16]) == r.left && Get(c[16..24]) == r.up
  {
    FieldReads(r.down, 8, c[0..8]);
    FieldReads(r.left, 8, c[8..16]);
    FieldReads(r.up, 8, c[16..24]);
  }

  lemma TailReads(r: AnnounceRequest, ipv4: Option<seq<Byte>>, t: seq<Byte>)
    requires t == Tail(r, ipv4) && InRange(r) && (ipv4.Some? ==> |ipv4.value| == 4)
    ensures |t| == 18 && Get(t[0..4]) == EventCode(r.event)
    ensures if ipv4.Some? then t[4..8] == ipv4.value else Get(t[4..8]) == 0
    ensures Get(t[8..12]) == r.key && Get(t[12..16]) == r.numwant % UINT32 && Get(t[16..18]) == r.port
  {
    FieldReads(EventCode(r.event), 4, t[0..4]);
    if ipv4 == None {
      FieldReads(0, 4, t[4..8]);
    }
    FieldReads(r.key, 4, t[8..12]);
    FieldReads(r.numwant % UINT32, 4, t[12..16]);
    FieldReads(r.port, 2, t[16..18]);
  }

  // ----- scrape request

  // The connection ID, then tau_scrape_request's payload: one 20-byte hash per
  // torrent.
  function ScrapeDatagram(connId: nat, txn: nat, hashes: seq<seq<Byte>>): seq<Byte> {
    Put(connId, 8) + Put(ACTION_SCRAPE, 4) + Put(txn, 4) + Concat(hashes)
  }

  function Concat(hashes: seq<seq<Byte>>): seq<Byte> {
    if hashes == [] then [] else Concat(hashes[..|hashes| - 1]) + hashes[|hashes| - 1]
  }

  // Hash i is at offset 16 + 20 * i of the datagram.
  lemma {:induction false} ScrapeDecodes(connId: nat, txn: nat, hashes: seq<seq<Byte>>, i: nat)
    requires forall h :: h in hashes ==> |h| == 20
    requires i < |hashes|
    ensures |Concat(hashes)| == 20 * |hashes|
    ensures var d := ScrapeDatagram(connId, txn, hashes);
            |d| == 16 + 20 * |hashes| && d[16 + 20 * i..36 + 20 * i] == hashes[i]
    decreases |hashes|
  {
    var init := hashes[..|hashes| - 1];
    ConcatLength(init);
    ConcatLength(hashes);
    var d, e := ScrapeDatagram(connId, txn, hashes), ScrapeDatagram(connId, txn, init);
    assert d == e + hashes[|hashes| - 1];
    if i < |init| {
      ScrapeDecodes(connId, txn, init, i);
    }
  }

  lemma {:induction false} ConcatLength(hashes: seq<seq<Byte>>)
    requires forall h :: h in hashes ==> |h| == 20
    ensures |Concat(hashes)| == 20 * |hashes|
  {
    if hashes != [] {
      ConcatLength(hashes[..|hashes| - 1]);
    }
  }

  // ----- responses

  // The action field as it is on the wire.
  function ActionField(msg: seq<Byte>): nat
    requires |msg| >= 8
  {
    Get(msg[0..4])
  }

  // handle_message(): the 4-byte action field is narrowed to an 8-bit enum.
  function ActionOf(msg: seq<Byte>): nat
    requires |msg| >= 8
  {
    ActionField(msg) % 256
  }

  function TransactionOf(msg: seq<Byte>): nat
    requires |msg| >= 8
  {
    Get(msg[4..8])
  }

  predicate IsResponseMessage(action: nat, msglen: nat) {
    if action == ACTION_CONNECT then msglen == 16
    else if action == ACTION_ANNOUNCE || action == ACTION_SCRAPE then msglen >= 20
    else action == ACTION_ERROR && msglen >= 8
  }

  // A message the announcer takes for a tracker's reply.
  predicate Understood(msg: seq<Byte>) {
    |msg| >= 8 && IsResponseMessage(ActionOf(msg), |msg|)
  }

  // The value of the first three bytes.
  function HighBytes(msg: seq<Byte>): (r: nat)
    requires |msg| >= 8
    ensures r == 0 <==> msg[0] == msg[1] == msg[2] == 0
  {
    var a: nat, b: nat, c: nat := msg[0], msg[1], msg[2];
    65536 * a + 256 * b + c
  }

  lemma ActionFieldIs(msg: seq<Byte>)
    requires |msg| >= 8
    ensures ActionField(msg) == 256 * HighBytes(msg) + msg[3]
  {
    var f := msg[0..4];
    var a: nat, b: nat := msg[0], msg[1];
    var one, two := f[..3][..2][..1], f[..3][..2];
    assert one[..0] == [] && Get(one) == 256 * Get([]) + one[0] == a;
    assert Get(two) == 256 * Get(one) + two[1] == 256 * a + b;
    assert Get(f[..3]) == 256 * (256 * a + b) + msg[2];
  }

  // The narrowing matters exactly when one of the first three bytes is not 0.
  lemma NarrowingMattersIff(msg: seq<Byte>)
    requires |msg| >= 8
    ensures ActionOf(msg) == msg[3]
    ensures ActionField(msg) == ActionOf(msg) <==> msg[0] == msg[1] == msg[2] == 0
  {
    ActionFieldIs(msg);
    LastByte(HighBytes(msg), msg[3]);
  }

  lemma LastByte(high: nat, low: Byte)
    ensures (256 * high + low) % 256 == low
  {
  }

  // A message is understood under an action BEP 15 does not define exactly then.
  lemma UnderstoodIsDefinedIff(msg: seq<Byte>)
    requires Understood(msg)
    ensures ActionField(msg) <= ACTION_ERROR <==> msg[0] == msg[1] == msg[2] == 0
  {
    ActionFieldIs(msg);
    NarrowingMattersIff(msg);
  }

  // Action 256 passes for a connect reply.
  const UNDEFINED_ACTION: seq<Byte> := [0, 0, 1, 0] + seq(12, i => 0)

  lemma UndefinedActionUnderstood()
    ensures ActionField(UNDEFINED_ACTION) == 256
    ensures Understood(UNDEFINED_ACTION) && ActionOf(UNDEFINED_ACTION) == ACTION_CONNECT
  {
    ActionFieldIs(UNDEFINED_ACTION);
  }

  function ErrorText(action: nat, body: seq<Byte>): string {
    if action == ACTION_ERROR && body != [] then AsText(body) else "Unknown error"
  }

  function AsText(body: seq<Byte>): string {
    seq(|body|, i requires 0 <= i < |body| => body[i] as char)
  }

  // tau_announce_request::on_response(): what an announce makes of a reply that
  // came over IP protocol `p` (0 is IPv4, 1 is IPv6). Peers stay the bytes of
  // the compact list.
  function AnnounceAnswer(p: nat, action: nat, body: seq<Byte>): Answer {
    if action == ACTION_ANNOUNCE && |body| >= 12 then
      Answer(Response(true, false, "", Get(body[0..4]), Some(Get(body[4..8])), Some(Get(body[8..12])),
                      if p < 2 then AsNats(body[12..]) else []), true)
    else Answer(EMPTY_RESPONSE.(didConnect := true, errmsg := ErrorText(action, body)), false)
  }

  function AsNats(body: seq<Byte>): seq<nat> {
    seq(|body|, i requires 0 <= i < |body| => body[i])
  }

  // tau_scrape_request::on_response(): rows come from the body (see FillRows).
  datatype ScrapeResult = ScrapeRows(body: seq<Byte>) | ScrapeFailed(didConnect: bool, didTimeout: bool, errmsg: string)

  function ScrapeReply(action: nat, body: seq<Byte>): ScrapeResult {
    if action == ACTION_SCRAPE then ScrapeRows(body) else ScrapeFailed(true, false, ErrorText(action, body))
  }

  datatype Row = Row(seeders: Option<nat>, downloads: Option<nat>, leechers: Option<nat>)

  // The i-th row of a scrape reply.
  function RowAt(body: seq<Byte>, i: nat): Row
    requires 12 * i + 12 <= |body|
  {
    Row(Some(Get(body[12 * i..12 * i + 4])), Some(Get(body[12 * i + 4..12 * i + 8])),
        Some(Get(body[12 * i + 8..12 * i + 12])))
  }

  // tau_scrape_request::on_response(), the loop over the rows: fills exactly
  // the rows the reply has bytes for and leaves the later ones alone.
  method FillRows(rows: array<Row>, rowCount: nat, body: seq<Byte>)
    requires rowCount <= rows.Length
    modifies rows
    ensures var filled := Min(rowCount, |body| / 12);
            && (forall i :: 0 <= i < filled ==> rows[i] == RowAt(body, i))
            && (forall i :: filled <= i < rows.Length ==> rows[i] == old(rows[i]))
  {
    var buf := body;
    var i := 0;
    while i < rowCount && |buf| >= 12
      invariant 0 <= i <= rowCount && 12 * i <= |body| && buf == body[12 * i..]
      invariant forall j :: 0 <= j < i ==> rows[j] == RowAt(body, j)
      invariant forall j :: i <= j < rows.Length ==> rows[j] == old(rows[j])
    {
      assert buf[0..4] == body[12 * i..12 * i + 4] && buf[4..8] == body[12 * i + 4..12 * i + 8]
          && buf[8..12] == body[12 * i + 8..12 * i + 12];
      rows[i] := Row(Some(Get(buf[0..4])), Some(Get(buf[4..8])), Some(Get(buf[8..12])));
      buf := buf[12..];
      i := i + 1;
    }
  }
}
