/** The three JSON batches sent to the backend: DNS queries, clients and forensic samples. Only the
    body building is modelled; a body is what is handed to the HTTP sender. */
module BackendBodies {
  import opened Machine
  import opened Packets
  import opened Decimals
  import opened JsonEscape
  import opened BatchBody
  import opened DnsWindows
  import opened ClientActivity
  import opened FxRings

  const DNS_BODY_MAX: nat := 8192
  const CLIENTS_BODY_MAX: nat := 8192
  const FORENSICS_BODY_MAX: nat := 8192
  const DNS_RESERVE: nat := 512
  const ENTRY_RESERVE: nat := 256

  /** `%d` */
  function IntText(n: int): string {
    if n < 0 then "-" + Decimal(-n) else Decimal(n)
  }

  function DnsHeader(deviceId: string, timestamp: string, windowSeconds: int): string {
    DnsHeaderLine(deviceId, timestamp, IntText(windowSeconds))
  }

  function DnsHeaderLine(deviceId: string, timestamp: string, windowSeconds: string): string {
    "{\"deviceId\":\"" + deviceId + "\",\"timestamp\":\"" + timestamp +
    "\",\"windowSeconds\":" + windowSeconds + ",\"queries\":["
  }

  function DnsLine(ip: string, domain: string, count: string): string {
    "{\"clientIp\":\"" + ip + "\",\"domain\":\"" + domain + "\",\"count\":" + count + "}"
  }

  function DnsText(e: DnsEvent): string {
    DnsLine(Escaped(e.key.clientIp, 32), Escaped(e.key.domain, 512), Decimal(e.count))
  }

  function ClientsHeader(deviceId: string, timestamp: string): string {
    "{\"deviceId\":\"" + deviceId + "\",\"timestamp\":\"" + timestamp + "\",\"clients\":["
  }

  function BoolText(b: bool): string {
    if b then "true" else "false"
  }

  function ClientLine(ip: string, mac: string, name: string, online: string): string {
    "{\"ip\":\"" + ip + "\",\"mac\":\"" + mac + "\",\"name\":\"" + name +
    "\",\"online\":" + online + "}"
  }

  function ClientText(c: ClientEntry): string {
    ClientLine(Escaped(c.ip, 32), Escaped(c.mac, 48), Escaped(c.name, 128), BoolText(c.online))
  }

  function ForensicsHeader(deviceId: string): string {
    "{\"deviceId\":\"" + deviceId + "\",\"packets\":["
  }

  /** Samples of other protocols are skipped. */
  predicate Reported(p: FxPacket) {
    p.protocol == PROTO_TCP || p.protocol == PROTO_UDP
  }

  function ProtocolText(protocol: u8): string {
    if protocol == PROTO_TCP then "TCP" else "UDP"
  }

  /** `iso` stands for the timestamp formatter. */
  function SampleText(p: FxPacket, iso: int -> string): string {
    SampleLine(iso(p.ts), ProtocolText(p.protocol), Escaped(p.srcIp, 32), Escaped(p.dstIp, 32),
               Decimal(p.srcPort), Decimal(p.dstPort), Decimal(p.size))
  }

  function SampleLine(stamp: string, protocol: string, src: string, dst: string,
                      srcPort: string, dstPort: string, size: string): string {
    SampleHead(stamp, protocol, src, dst) + SamplePorts(srcPort, dstPort, size)
  }

  function SampleHead(stamp: string, protocol: string, src: string, dst: string): string {
    SampleStart(stamp, protocol) + SampleHosts(src, dst)
  }

  function SampleStart(stamp: string, protocol: string): string {
    "{\"timestamp\":\"" + stamp + "\",\"protocol\":\"" + protocol + "\""
  }

  function SampleHosts(src: string, dst: string): string {
    ",\"sourceIp\":\"" + src + "\",\"destinationIp\":\"" + dst + "\""
  }

  function SamplePorts(srcPort: string, dstPort: string, size: string): string {
    ",\"sourcePort\":" + srcPort + ",\"destinationPort\":" + dstPort + ",\"packetSize\":" + size + "}"
  }

  function Texts<X>(xs: seq<X>, render: X -> string): (t: seq<string>)
    ensures |t| == |xs|
  {
    seq(|xs|, i requires 0 <= i < |xs| => render(xs[i]))
  }

  function ReportedOnly(packets: seq<FxPacket>, n: nat): (r: seq<FxPacket>)
    requires n <= |packets|
    ensures |r| <= n && forall i :: 0 <= i < |r| ==> Reported(r[i])
  {
    if n == 0 then []
    else
      var r := ReportedOnly(packets, n - 1);
      if Reported(packets[n - 1]) then r + [packets[n - 1]] else r
  }

  function DnsTexts(events: seq<DnsEvent>): seq<string> {
    Texts(events, e => DnsText(e))
  }

  function ClientTexts(clients: seq<ClientEntry>): seq<string> {
    Texts(clients, c => ClientText(c))
  }

  function SampleTexts(packets: seq<FxPacket>, iso: int -> string): seq<string> {
    Texts(ReportedOnly(packets, |packets|), p => SampleText(p, iso))
  }

  function DnsBody(deviceId: string, events: seq<DnsEvent>, windowSeconds: int, timestamp: string): Option<string> {
    if |deviceId| == 0 || |events| == 0 then None
    else BatchText(DnsHeader(deviceId, timestamp, windowSeconds), DnsTexts(events), DNS_RESERVE, DNS_BODY_MAX, false)
  }

  function ClientsBody(deviceId: string, clients: seq<ClientEntry>, timestamp: string): Option<string> {
    if |deviceId| == 0 || |clients| == 0 then None
    else BatchText(ClientsHeader(deviceId, timestamp), ClientTexts(clients), ENTRY_RESERVE, CLIENTS_BODY_MAX, false)
  }

  function ForensicsBody(deviceId: string, packets: seq<FxPacket>, iso: int -> string): Option<string> {
    if |deviceId| == 0 || |packets| == 0 then None
    else BatchText(ForensicsHeader(deviceId), SampleTexts(packets, iso), ENTRY_RESERVE, FORENSICS_BODY_MAX, true)
  }

  // ----- C strings throughout -----

  lemma EscapedIsCString(s: string, size: nat)
    ensures IsCString(Escaped(s, size))
  {
    EscapeIsPrintable(s, 0, 0, size);
  }

  lemma DecimalIsCString(n: nat)
    ensures IsCString(Decimal(n))
  {
    DecimalDigits(n);
  }

  lemma DnsLineIsCString(ip: string, domain: string, count: string)
    requires IsCString(ip) && IsCString(domain) && IsCString(count)
    ensures IsCString(DnsLine(ip, domain, count))
  {
  }

  lemma ClientLineIsCString(ip: string, mac: string, name: string, online: string)
    requires IsCString(ip) && IsCString(mac) && IsCString(name) && IsCString(online)
    ensures IsCString(ClientLine(ip, mac, name, online))
  {
  }

  lemma SampleLineIsCString(stamp: string, protocol: string, src: string, dst: string,
                            srcPort: string, dstPort: string, size: string)
    requires IsCString(stamp) && IsCString(protocol) && IsCString(src) && IsCString(dst)
    requires IsCString(srcPort) && IsCString(dstPort) && IsCString(size)
    ensures IsCString(SampleLine(stamp, protocol, src, dst, srcPort, dstPort, size))
  {
  }

  lemma DnsTextIsCString(e: DnsEvent)
    ensures IsCString(DnsText(e))
  {
    EscapedIsCString(e.key.clientIp, 32);
    EscapedIsCString(e.key.domain, 512);
    DecimalIsCString(e.count);
    DnsLineIsCString(Escaped(e.key.clientIp, 32), Escaped(e.key.domain, 512), Decimal(e.count));
  }

  lemma ClientTextIsCString(c: ClientEntry)
    ensures IsCString(ClientText(c))
  {
    EscapedIsCString(c.ip, 32);
    EscapedIsCString(c.mac, 48);
    EscapedIsCString(c.name, 128);
    ClientLineIsCString(Escaped(c.ip, 32), Escaped(c.mac, 48), Escaped(c.name, 128), BoolText(c.online));
  }

  lemma SampleTextIsCString(p: FxPacket, iso: int -> string)
    requires IsCString(iso(p.ts))
    ensures IsCString(SampleText(p, iso))
  {
    EscapedIsCString(p.srcIp, 32);
    EscapedIsCString(p.dstIp, 32);
    DecimalIsCString(p.srcPort);
    DecimalIsCString(p.dstPort);
    DecimalIsCString(p.size);
    SampleLineIsCString(iso(p.ts), ProtocolText(p.protocol), Escaped(p.srcIp, 32), Escaped(p.dstIp, 32),
                        Decimal(p.srcPort), Decimal(p.dstPort), Decimal(p.size));
  }

  lemma DnsHeaderLineIsCString(deviceId: string, timestamp: string, windowSeconds: string)
    requires IsCString(deviceId) && IsCString(timestamp) && IsCString(windowSeconds)
    ensures IsCString(DnsHeaderLine(deviceId, timestamp, windowSeconds))
  {
  }

  lemma IntTextIsCString(n: int)
    ensures IsCString(IntText(n))
  {
    if n < 0 { DecimalIsCString(-n); } else { DecimalIsCString(n); }
  }

  // ----- The senders -----

  /** Escapes into a local buffer and reads the C string back. */
  method EscapeField(text: string, size: nat) returns (s: string)
    requires size > 0
    ensures s == Escaped(text, size)
  {
    var buf := new char[size](_ => '\0');
    EscapeInto(text, buf);
    s := CString(buf[..]);
    ghost var e := Escaped(text, size);
    EscapedIsCString(text, size);
    assert buf[..] == e + ['\0'] + buf[|e| + 1..];
    CStringOfTerminated(e, buf[|e| + 1..]);
  }

  /** One entry of each kind, rendered through its escape buffers. */
  method RenderQuery(e: DnsEvent) returns (text: string)
    ensures text == DnsText(e) && IsCString(text)
  {
    var ip := EscapeField(e.key.clientIp, 32);
    var domain := EscapeField(e.key.domain, 512);
    text := DnsLine(ip, domain, Decimal(e.count));
    DnsTextIsCString(e);
  }

  method RenderClient(c: ClientEntry) returns (text: string)
    ensures text == ClientText(c) && IsCString(text)
  {
    var ip := EscapeField(c.ip, 32);
    var mac := EscapeField(c.mac, 48);
    var name := EscapeField(c.name, 128);
    text := ClientLine(ip, mac, name, BoolText(c.online));
    ClientTextIsCString(c);
  }

  method RenderSample(p: FxPacket, iso: int -> string) returns (text: string)
    requires IsCString(iso(p.ts))
    ensures text == SampleText(p, iso) && IsCString(text)
  {
    var src := EscapeField(p.srcIp, 32);
    var dst := EscapeField(p.dstIp, 32);
    text := SampleLine(iso(p.ts), ProtocolText(p.protocol), src, dst,
                       Decimal(p.srcPort), Decimal(p.dstPort), Decimal(p.size));
    SampleTextIsCString(p, iso);
  }

  lemma HeadersAreCStrings(deviceId: string, timestamp: string)
    requires IsCString(deviceId) && IsCString(timestamp)
    ensures IsCString(ClientsHeader(deviceId, timestamp)) && IsCString(ForensicsHeader(deviceId))
  {
  }

  method SendDns(deviceId: string, events: seq<DnsEvent>, windowSeconds: int, timestamp: string)
    returns (body: Option<string>)
    requires IsCString(deviceId) && IsCString(timestamp)
    ensures body == DnsBody(deviceId, events, windowSeconds, timestamp)
  {
    if |deviceId| == 0 || |events| == 0 {
      return None;
    }
    var entries := [];
    for i := 0 to |events|
      invariant |entries| == i
      invariant forall j :: 0 <= j < i ==> entries[j] == DnsText(events[j]) && IsCString(entries[j])
    {
      var entry := RenderQuery(events[i]);
      entries := entries + [entry];
    }
    IntTextIsCString(windowSeconds);
    DnsHeaderLineIsCString(deviceId, timestamp, IntText(windowSeconds));
    assert entries == DnsTexts(events);
    body := BuildBatch(DnsHeader(deviceId, timestamp, windowSeconds), entries, DNS_RESERVE, DNS_BODY_MAX, false);
  }

  method SendClients(deviceId: string, clients: seq<ClientEntry>, timestamp: string) returns (body: Option<string>)
    requires IsCString(deviceId) && IsCString(timestamp)
    ensures body == ClientsBody(deviceId, clients, timestamp)
  {
    if |deviceId| == 0 || |clients| == 0 {
      return None;
    }
    var entries := [];
    for i := 0 to |clients|
      invariant |entries| == i
      invariant forall j :: 0 <= j < i ==> entries[j] == ClientText(clients[j]) && IsCString(entries[j])
    {
      var entry := RenderClient(clients[i]);
      entries := entries + [entry];
    }
    HeadersAreCStrings(deviceId, timestamp);
    assert entries == ClientTexts(clients);
    body := BuildBatch(ClientsHeader(deviceId, timestamp), entries, ENTRY_RESERVE, CLIENTS_BODY_MAX, false);
  }

  method SendForensics(deviceId: string, packets: seq<FxPacket>, iso: int -> string) returns (body: Option<string>)
    requires IsCString(deviceId) && forall t :: IsCString(iso(t))
    ensures body == ForensicsBody(deviceId, packets, iso)
  {
    if |deviceId| == 0 || |packets| == 0 {
      return None;
    }
    var entries := [];
    for i := 0 to |packets|
      invariant |entries| == |ReportedOnly(packets, i)|
      invariant forall j :: 0 <= j < |entries| ==>
        entries[j] == SampleText(ReportedOnly(packets, i)[j], iso) && IsCString(entries[j])
    {
      var p := packets[i];
      if !Reported(p) {
        continue;
      }
      var entry := RenderSample(p, iso);
      entries := entries + [entry];
    }
    HeadersAreCStrings(deviceId, "");
    assert entries == SampleTexts(packets, iso);
    body := BuildBatch(ForensicsHeader(deviceId), entries, ENTRY_RESERVE, FORENSICS_BODY_MAX, true);
  }

  // ----- Reserve arithmetic -----

  lemma EscapedFits(s: string, size: nat)
    requires size > 0
    ensures |Escaped(s, size)| <= size - 1
  {
  }

  lemma WordLength(n: nat)
    ensures n < TWO16 ==> |Decimal(n)| <= 5
    ensures n < TWO32 ==> |Decimal(n)| <= 10
  {
    assert Pow10(5) == 100000;
    assert Pow10(10) == 100000 * 100000 by {
      assert Pow10(6) == 1000000 && Pow10(8) == 100000000;
    }
    if n < TWO16 { DecimalLength(n, 5); }
    if n < TWO32 { DecimalLength(n, 10); }
  }

  lemma ClientTextLength(c: ClientEntry)
    ensures |ClientText(c)| <= 248
  {
    EscapedFits(c.ip, 32);
    EscapedFits(c.mac, 48);
    EscapedFits(c.name, 128);
  }

  /** The client batch is always sent: no entry is ever truncated and the closing always fits;
      entries are left out only once fewer than 257 bytes remain. */
  lemma ClientsAlwaysSent(deviceId: string, clients: seq<ClientEntry>, timestamp: string)
    requires 0 < |deviceId| <= 63 && |timestamp| <= 31 && |clients| > 0
    ensures var header, entries := ClientsHeader(deviceId, timestamp), ClientTexts(clients);
      var k := Printed(header, entries, ENTRY_RESERVE, CLIENTS_BODY_MAX);
      ClientsBody(deviceId, clients, timestamp) == Some(BodyOf(header, entries, k)) &&
      (k < |clients| ==> |header| + |JoinFirst(entries, k)| + 256 >= 8192)
  {
    var entries := ClientTexts(clients);
    forall i | 0 <= i < |entries| ensures |Piece(entries, i)| + 2 <= ENTRY_RESERVE {
      ClientTextLength(clients[i]);
    }
    ReserveSuffices(ClientsHeader(deviceId, timestamp), entries, ENTRY_RESERVE, CLIENTS_BODY_MAX);
  }

  lemma SampleTextLength(p: FxPacket, iso: int -> string)
    requires |iso(p.ts)| <= 31
    ensures |SampleText(p, iso)| <= 229
  {
    EscapedFits(p.srcIp, 32);
    EscapedFits(p.dstIp, 32);
    WordLength(p.srcPort);
    WordLength(p.dstPort);
    WordLength(p.size);
  }

  /** A flush samples at most 32 packets, and all its TCP and UDP samples always fit. */
  lemma ForensicsAllSent(deviceId: string, packets: seq<FxPacket>, iso: int -> string)
    requires 0 < |deviceId| <= 63 && |packets| <= FX_SAMPLE_MAX
    requires forall t :: |iso(t)| <= 31
    requires |ReportedOnly(packets, |packets|)| > 0
    ensures var entries := SampleTexts(packets, iso);
      ForensicsBody(deviceId, packets, iso) == Some(BodyOf(ForensicsHeader(deviceId), entries, |entries|))
  {
    var header, entries := ForensicsHeader(deviceId), SampleTexts(packets, iso);
    forall i | 0 <= i < |entries| ensures |Piece(entries, i)| <= 230 {
      SampleTextLength(ReportedOnly(packets, |packets|)[i], iso);
    }
    assert |entries| * 230 <= 32 * 230;
    AllPrinted(header, entries, ENTRY_RESERVE, FORENSICS_BODY_MAX, 230);
    BodyDetermines(header, entries);
  }

  lemma BodyDetermines(header: string, entries: seq<string>)
    requires |entries| > 0
    requires BatchText(header, entries, ENTRY_RESERVE, FORENSICS_BODY_MAX, false)
          == Some(BodyOf(header, entries, |entries|))
    requires forall i :: 0 <= i < |entries| ==> |Piece(entries, i)| + 2 <= ENTRY_RESERVE
    requires |header| + ENTRY_RESERVE < FORENSICS_BODY_MAX
    ensures BatchText(header, entries, ENTRY_RESERVE, FORENSICS_BODY_MAX, true)
         == Some(BodyOf(header, entries, |entries|))
  {
    assert Fits(|header|, |Piece(entries, 0)|, ENTRY_RESERVE, FORENSICS_BODY_MAX);
  }

  lemma DnsHeaderLength(deviceId: string, timestamp: string, windowSeconds: int)
    requires |deviceId| <= 63 && |timestamp| <= 31 && -(TWO32 as int) < windowSeconds < TWO32
    ensures |DnsHeader(deviceId, timestamp, windowSeconds)| <= 164
  {
    if windowSeconds < 0 { WordLength(-windowSeconds); } else { WordLength(windowSeconds); }
  }

  /** The DNS batch is sent whenever every printed entry, comma included, is at most 510 bytes. */
  lemma DnsSentWhenShort(deviceId: string, events: seq<DnsEvent>, windowSeconds: int, timestamp: string)
    requires 0 < |deviceId| <= 63 && |timestamp| <= 31 && |events| > 0
    requires -(TWO32 as int) < windowSeconds < TWO32
    requires forall i :: 0 <= i < |events| ==> |Piece(DnsTexts(events), i)| <= 510
    ensures var header, entries := DnsHeader(deviceId, timestamp, windowSeconds), DnsTexts(events);
      DnsBody(deviceId, events, windowSeconds, timestamp)
      == Some(BodyOf(header, entries, Printed(header, entries, DNS_RESERVE, DNS_BODY_MAX)))
  {
    DnsHeaderLength(deviceId, timestamp, windowSeconds);
    ReserveSuffices(DnsHeader(deviceId, timestamp, windowSeconds), DnsTexts(events), DNS_RESERVE, DNS_BODY_MAX);
  }

  /** Some entry starts below byte 7680 and ends at byte 8190 or 8191; that takes a piece of at
      least 511 bytes. */
  predicate EndsTooLate(header: string, entries: seq<string>) {
    exists j :: 0 < j <= |entries| &&
      |header| + |JoinFirst(entries, j - 1)| < 7680 &&
      8190 <= |header| + |JoinFirst(entries, j)| <= 8191
  }

  lemma TooLateIsLastTwo(header: string, entries: seq<string>)
    ensures EndsTooLate(header, entries) <==> EndsInLastTwo(header, entries, DNS_RESERVE, DNS_BODY_MAX)
  {
  }

  /** The whole DNS batch is lost, every query in it, exactly when some entry does that. */
  lemma DnsLostIff(deviceId: string, events: seq<DnsEvent>, windowSeconds: int, timestamp: string)
    requires 0 < |deviceId| <= 63 && |timestamp| <= 31 && |events| > 0
    requires -(TWO32 as int) < windowSeconds < TWO32
    ensures DnsBody(deviceId, events, windowSeconds, timestamp).None?
      <==> EndsTooLate(DnsHeader(deviceId, timestamp, windowSeconds), DnsTexts(events))
  {
    var header, entries := DnsHeader(deviceId, timestamp, windowSeconds), DnsTexts(events);
    DnsHeaderLength(deviceId, timestamp, windowSeconds);
    LostIff(header, entries, DNS_RESERVE, DNS_BODY_MAX);
    TooLateIsLastTwo(header, entries);
  }
}
