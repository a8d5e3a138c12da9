/** Reading batches back: an independent reader for the three kinds of entry, and the proof that a
    sent body denotes exactly the printed prefix of the input. */
module BatchDecode {
  import opened Machine
  import opened Decimals
  import opened JsonEscape
  import opened BatchBody
  import opened DnsWindows
  import opened ClientActivity
  import opened FxRings
  import opened BackendBodies

  // ----- Lists of entries -----

  type Reader<!X> = string -> Option<(X, string)>

  /** Reads comma-separated entries up to the closing. An entry that consumes nothing is refused. */
  function ReadEntries<X>(s: string, read: Reader<X>, first: bool): Option<seq<X>>
    decreases |s|
  {
    if s == CLOSING then Some([])
    else if !first && (|s| == 0 || s[0] != ',') then None
    else
      var body := if first then s else s[1..];
      match read(body)
      case None => None
      case Some((x, rest)) =>
        if |rest| >= |s| then None
        else match ReadEntries(rest, read, false)
             case None => None
             case Some(xs) => Some([x] + xs)
  }

  function ReadBatch<X>(body: string, header: string, read: Reader<X>): Option<seq<X>> {
    if header <= body then ReadEntries(body[|header|..], read, true) else None
  }

  /** The pieces from entry `i` to entry `k`. */
  function Pieces(entries: seq<string>, i: nat, k: nat): string
    requires i <= k <= |entries|
    decreases k - i
  {
    if i == k then "" else Piece(entries, i) + Pieces(entries, i + 1, k)
  }

  lemma {:induction false} JoinIsPieces(entries: seq<string>, i: nat, k: nat)
    requires i <= k <= |entries|
    ensures JoinFirst(entries, k) == JoinFirst(entries, i) + Pieces(entries, i, k)
    decreases k - i
  {
    if i < k {
      JoinIsPieces(entries, i + 1, k);
      var j, p, r := JoinFirst(entries, i), Piece(entries, i), Pieces(entries, i + 1, k);
      assert (j + p) + r == j + (p + r);
    } else {
      assert JoinFirst(entries, i) + "" == JoinFirst(entries, i);
    }
  }

  /** The reader understands a printed entry, whatever follows it. */
  ghost predicate Understands<X>(read: Reader<X>, text: string, x: X) {
    |text| > 0 && text[0] == '{' && forall rest :: read(text + rest) == Some((x, rest))
  }

  lemma {:induction false} EntriesReadBack<X>(entries: seq<string>, xs: seq<X>, read: Reader<X>, i: nat, k: nat)
    requires |xs| == |entries| && i <= k <= |entries|
    requires forall j :: 0 <= j < |entries| ==> Understands(read, entries[j], xs[j])
    ensures ReadEntries(Pieces(entries, i, k) + CLOSING, read, i == 0) == Some(xs[i..k])
    decreases k - i
  {
    var s := Pieces(entries, i, k) + CLOSING;
    if i == k {
      assert s == CLOSING;
    } else {
      EntriesReadBack(entries, xs, read, i + 1, k);
      var tail := Pieces(entries, i + 1, k) + CLOSING;
      EntryFirst(entries, i, k);
      assert Understands(read, entries[i], xs[i]);
      assert read(entries[i] + tail) == Some((xs[i], tail));
      assert xs[i..k] == [xs[i]] + xs[i + 1..k];
    }
  }

  lemma EntryFirst(entries: seq<string>, i: nat, k: nat)
    requires i < k <= |entries| && |entries[i]| > 0 && entries[i][0] == '{'
    ensures var s, tail := Pieces(entries, i, k) + CLOSING, Pieces(entries, i + 1, k) + CLOSING;
      |tail| < |s| && s[0] != ']' &&
      (i == 0 ==> s == entries[i] + tail) && (i > 0 ==> s[0] == ',' && s[1..] == entries[i] + tail)
  {
    Regrouped(if i == 0 then "" else ",", entries[i], Pieces(entries, i + 1, k), CLOSING);
  }

  lemma Regrouped(comma: string, entry: string, rest: string, closing: string)
    ensures ((comma + entry) + rest) + closing == comma + (entry + (rest + closing))
    ensures comma == "" ==> ((comma + entry) + rest) + closing == entry + (rest + closing)
    ensures comma == "," ==> (((comma + entry) + rest) + closing)[1..] == entry + (rest + closing)
  {
  }

  /** A sent body reads back as the printed prefix. */
  lemma BodyReadsBack<X>(header: string, entries: seq<string>, xs: seq<X>, read: Reader<X>, k: nat)
    requires |xs| == |entries| && k <= |entries|
    requires forall j :: 0 <= j < |entries| ==> Understands(read, entries[j], xs[j])
    ensures ReadBatch(BodyOf(header, entries, k), header, read) == Some(xs[..k])
  {
    EntriesReadBack(entries, xs, read, 0, k);
    JoinIsPieces(entries, 0, k);
    assert "" + Pieces(entries, 0, k) == Pieces(entries, 0, k);
    assert BodyOf(header, entries, k) == header + (Pieces(entries, 0, k) + CLOSING);
    assert BodyOf(header, entries, k)[|header|..] == Pieces(entries, 0, k) + CLOSING;
    assert xs[0..k] == xs[..k];
  }

  // ----- Tokens -----

  function Expect(s: string, token: string): Option<string> {
    if token <= s then Some(s[|token|..]) else None
  }

  lemma ExpectToken(token: string, rest: string)
    ensures Expect(token + rest, token) == Some(rest)
  {
  }

  /** A named string: the token up to its opening quote, then its text. */
  function ReadField(s: string, token: string): Option<Read> {
    var body :- Expect(s, token);
    ReadString(body)
  }

  function FieldText(token: string, text: string, rest: string): string {
    token + (text + ("\"" + rest))
  }

  /** An escaped field and its closing quote read back as the bytes the buffer kept. */
  lemma FieldReadsBack(token: string, text: string, size: nat, rest: string)
    requires IsCString(text)
    ensures ReadField(FieldText(token, Escaped(text, size), rest), token) == Some(Read(Kept(text, 0, 0, size), rest))
  {
    ExpectToken(token, Escaped(text, size) + ("\"" + rest));
    EscapeReadsBack(text, 0, 0, size, rest);
    Regroup(Escaped(text, size), "\"", rest);
  }

  /** Text that needs no escaping. */
  predicate Plain(s: string) {
    forall i :: 0 <= i < |s| ==> s[i] >= ' ' && s[i] != '"' && s[i] != '\\'
  }

  lemma {:induction false} PlainReadsBack(s: string, rest: string)
    requires Plain(s)
    ensures ReadString(s + ("\"" + rest)) == Some(Read(s, rest))
  {
    if |s| == 0 {
      assert s + ("\"" + rest) == "\"" + rest;
      assert ("\"" + rest)[1..] == rest;
    } else {
      PlainReadsBack(s[1..], rest);
      assert (s + ("\"" + rest))[1..] == s[1..] + ("\"" + rest);
      assert [s[0]] + s[1..] == s;
    }
  }

  lemma PlainFieldReadsBack(token: string, text: string, rest: string)
    requires Plain(text)
    ensures ReadField(FieldText(token, text, rest), token) == Some(Read(text, rest))
  {
    ExpectToken(token, text + ("\"" + rest));
    PlainReadsBack(text, rest);
  }

  /** What reads back takes up at least its own length and a quote, and no more only if it is plain. */
  lemma {:induction false} ReadLength(s: string)
    ensures ReadString(s).Some? ==>
      var r := ReadString(s).value;
      |r.text| + 1 + |r.rest| <= |s| && (|r.text| + 1 + |r.rest| == |s| ==> Plain(r.text))
    decreases |s|
  {
    if |s| > 0 && s[0] >= ' ' && s[0] != '"' {
      if s[0] != '\\' {
        ReadLength(s[1..]);
      } else if |s| >= 6 && s[1] == 'u' {
        ReadLength(s[6..]);
      } else if |s| >= 2 && s[1] != 'u' {
        ReadLength(s[2..]);
      }
    }
  }

  /** Text printed without escaping reads back as itself exactly when it is plain. */
  lemma RawReadsBackIff(token: string, text: string, rest: string)
    ensures ReadField(FieldText(token, text, rest), token) == Some(Read(text, rest)) <==> Plain(text)
  {
    var s := text + ("\"" + rest);
    ExpectToken(token, s);
    ReadLength(s);
    if Plain(text) {
      PlainReadsBack(text, rest);
    }
  }

  function ReadNumber(s: string): Option<(nat, string)> {
    if NoDigitNext(s) then None else Some(ScanNumber(s, 0))
  }

  lemma NumberReadsBack(n: nat, rest: string)
    requires NoDigitNext(rest)
    ensures ReadNumber(Decimal(n) + rest) == Some((n, rest))
  {
    ScanDecimal(n, rest);
    assert (Decimal(n) + rest)[0] == Decimal(n)[0];
  }

  /** A named number. */
  function ReadCount(s: string, token: string): Option<(nat, string)> {
    var body :- Expect(s, token);
    ReadNumber(body)
  }

  lemma CountReadsBack(token: string, n: nat, rest: string)
    requires NoDigitNext(rest)
    ensures ReadCount(token + (Decimal(n) + rest), token) == Some((n, rest))
  {
    ExpectToken(token, Decimal(n) + rest);
    NumberReadsBack(n, rest);
  }

  function ReadBool(s: string): Option<(bool, string)> {
    if "true" <= s then Some((true, s[4..]))
    else if "false" <= s then Some((false, s[5..]))
    else None
  }

  lemma BoolReadsBack(b: bool, rest: string)
    ensures ReadBool(BoolText(b) + rest) == Some((b, rest))
  {
    var t := BoolText(b);
    assert (t + rest)[|t|..] == rest && (t + rest)[..|t|] == t;
    assert (t + rest)[0] == t[0];
  }

  function ReadInt(s: string): Option<(int, string)> {
    if |s| > 0 && s[0] == '-' then
      var n :- ReadNumber(s[1..]);
      Some((-(n.0 as int), n.1))
    else
      var n :- ReadNumber(s);
      Some((n.0 as int, n.1))
  }

  lemma IntReadsBack(n: int, rest: string)
    requires NoDigitNext(rest)
    ensures ReadInt(IntText(n) + rest) == Some((n, rest))
  {
    if n < 0 {
      NumberReadsBack(-n, rest);
      assert (IntText(n) + rest)[1..] == Decimal(-n) + rest;
    } else {
      NumberReadsBack(n, rest);
      assert (IntText(n) + rest)[0] == Decimal(n)[0];
    }
  }

  // ----- Clients -----

  const H1: string := "{\"deviceId\":\""
  const H2: string := ",\"timestamp\":\""
  const H3: string := ",\"windowSeconds\":"

  datatype ClientBatch = ClientBatch(deviceId: string, timestamp: string, clients: seq<ClientEntry>)

  /** A whole client batch, header included. */
  function ReadClientBody(body: string): Option<ClientBatch> {
    var deviceId :- ReadField(body, H1);
    var timestamp :- ReadField(deviceId.rest, H2);
    var list :- Expect(timestamp.rest, ",\"clients\":[");
    var clients :- ReadEntries(list, (s: string) => ReadClient(s), true);
    Some(ClientBatch(deviceId.text, timestamp.text, clients))
  }

  lemma ClientsHeaderLayout(deviceId: string, timestamp: string, list: string)
    ensures ClientsHeader(deviceId, timestamp) + list
      == FieldText(H1, deviceId, FieldText(H2, timestamp, ",\"clients\":[" + list))
  {
  }

  lemma ClientBodyMeans(deviceId: string, timestamp: string, list: string)
    requires Plain(deviceId) && Plain(timestamp)
    ensures ReadClientBody(ClientsHeader(deviceId, timestamp) + list) ==
      match ReadEntries(list, (s: string) => ReadClient(s), true)
      case None => None
      case Some(clients) => Some(ClientBatch(deviceId, timestamp, clients))
  {
    ClientsHeaderLayout(deviceId, timestamp, list);
    RawReadsBackIff(H1, deviceId, FieldText(H2, timestamp, ",\"clients\":[" + list));
    RawReadsBackIff(H2, timestamp, ",\"clients\":[" + list);
    ExpectToken(",\"clients\":[", list);
  }

  const C1: string := "{\"ip\":\""
  const C2: string := ",\"mac\":\""
  const C3: string := ",\"name\":\""
  const C4: string := ",\"online\":"

  function ReadClient(s: string): Option<(ClientEntry, string)> {
    var ip :- ReadField(s, C1);
    var mac :- ReadField(ip.rest, C2);
    var name :- ReadField(mac.rest, C3);
    var d :- Expect(name.rest, C4);
    var online :- ReadBool(d);
    var rest :- Expect(online.1, "}");
    Some((ClientEntry(ip.text, mac.text, name.text, online.0), rest))
  }

  predicate ClientTextual(c: ClientEntry) {
    IsCString(c.ip) && IsCString(c.mac) && IsCString(c.name)
  }

  /** What the 32-, 48- and 128-byte buffers keep of a client. */
  function KeptClient(c: ClientEntry): ClientEntry {
    ClientEntry(Kept(c.ip, 0, 0, 32), Kept(c.mac, 0, 0, 48), Kept(c.name, 0, 0, 128), c.online)
  }

  function KeptClients(clients: seq<ClientEntry>): (r: seq<ClientEntry>)
    ensures |r| == |clients|
  {
    seq(|clients|, i requires 0 <= i < |clients| => KeptClient(clients[i]))
  }

  /** A client is kept whole exactly when the last byte of each field has room. */
  lemma ClientWholeIff(c: ClientEntry)
    ensures KeptClient(c) == c <==> LastFits(c.ip, 32) && LastFits(c.mac, 48) && LastFits(c.name, 128)
  {
    ExactIff(c.ip, 32);
    ExactIff(c.mac, 48);
    ExactIff(c.name, 128);
  }

  lemma ClientLayout(ip: string, mac: string, name: string, online: string, rest: string)
    ensures ClientLine(ip, mac, name, online) + rest
      == FieldText(C1, ip, FieldText(C2, mac, FieldText(C3, name, C4 + (online + ("}" + rest)))))
  {
  }

  lemma ClientReadsBack(c: ClientEntry, rest: string)
    requires ClientTextual(c)
    ensures ReadClient(ClientText(c) + rest) == Some((KeptClient(c), rest))
  {
    var ip, mac, name, online := Escaped(c.ip, 32), Escaped(c.mac, 48), Escaped(c.name, 128), BoolText(c.online);
    var t4 := C4 + (online + ("}" + rest));
    var t3 := FieldText(C3, name, t4);
    var t2 := FieldText(C2, mac, t3);
    ClientLayout(ip, mac, name, online, rest);
    FieldReadsBack(C1, c.ip, 32, t2);
    FieldReadsBack(C2, c.mac, 48, t3);
    FieldReadsBack(C3, c.name, 128, t4);
    ExpectToken(C4, online + ("}" + rest));
    BoolReadsBack(c.online, "}" + rest);
    ExpectToken("}", rest);
  }

  lemma ClientUnderstood(c: ClientEntry)
    requires ClientTextual(c)
    ensures Understands((s: string) => ReadClient(s), ClientText(c), KeptClient(c))
  {
    var read := (s: string) => ReadClient(s);
    forall rest ensures read(ClientText(c) + rest) == Some((KeptClient(c), rest)) {
      ClientReadsBack(c, rest);
    }
  }

  /** Whatever client batch is sent, the backend reads off exactly the printed prefix, each field as
      its buffer kept it. */
  lemma ClientsBodyReadsBack(deviceId: string, clients: seq<ClientEntry>, timestamp: string)
    requires forall i :: 0 <= i < |clients| ==> ClientTextual(clients[i])
    requires ClientsBody(deviceId, clients, timestamp).Some?
    ensures var header, body := ClientsHeader(deviceId, timestamp), ClientsBody(deviceId, clients, timestamp).value;
      var k := Printed(header, ClientTexts(clients), ENTRY_RESERVE, CLIENTS_BODY_MAX);
      ReadBatch(body, header, (s: string) => ReadClient(s)) == Some(KeptClients(clients)[..k])
  {
    var read := (s: string) => ReadClient(s);
    var entries, kept := ClientTexts(clients), KeptClients(clients);
    forall j | 0 <= j < |entries| ensures Understands(read, entries[j], kept[j]) {
      ClientUnderstood(clients[j]);
    }
    var header := ClientsHeader(deviceId, timestamp);
    BodyReadsBack(header, entries, kept, read, Printed(header, entries, ENTRY_RESERVE, CLIENTS_BODY_MAX));
  }

  lemma ClientListWhole(deviceId: string, timestamp: string, body: string, clients: seq<ClientEntry>)
    requires Plain(deviceId) && Plain(timestamp)
    requires ReadBatch(body, ClientsHeader(deviceId, timestamp), (s: string) => ReadClient(s)) == Some(clients)
    ensures ReadClientBody(body) == Some(ClientBatch(deviceId, timestamp, clients))
  {
    var header := ClientsHeader(deviceId, timestamp);
    var list := body[|header|..];
    assert body == header + list;
    ClientBodyMeans(deviceId, timestamp, list);
  }

  /** So a body with a plain device id and timestamp reads back whole, header fields included. */
  lemma ClientsBodyWhole(deviceId: string, clients: seq<ClientEntry>, timestamp: string)
    requires forall i :: 0 <= i < |clients| ==> ClientTextual(clients[i])
    requires ClientsBody(deviceId, clients, timestamp).Some? && Plain(deviceId) && Plain(timestamp)
    ensures var k := Printed(ClientsHeader(deviceId, timestamp), ClientTexts(clients), ENTRY_RESERVE, CLIENTS_BODY_MAX);
      ReadClientBody(ClientsBody(deviceId, clients, timestamp).value)
      == Some(ClientBatch(deviceId, timestamp, KeptClients(clients)[..k]))
  {
    ClientsBodyReadsBack(deviceId, clients, timestamp);
    var k := Printed(ClientsHeader(deviceId, timestamp), ClientTexts(clients), ENTRY_RESERVE, CLIENTS_BODY_MAX);
    ClientListWhole(deviceId, timestamp, ClientsBody(deviceId, clients, timestamp).value, KeptClients(clients)[..k]);
  }

  // ----- DNS queries -----

  datatype DnsBatch = DnsBatch(deviceId: string, timestamp: string, windowSeconds: int, queries: seq<DnsEvent>)

  /** A whole DNS batch, header included. */
  function ReadDnsBody(body: string): Option<DnsBatch> {
    var deviceId :- ReadField(body, H1);
    var timestamp :- ReadField(deviceId.rest, H2);
    var number :- Expect(timestamp.rest, H3);
    var seconds :- ReadInt(number);
    var list :- Expect(seconds.1, ",\"queries\":[");
    var queries :- ReadEntries(list, (s: string) => ReadDns(s), true);
    Some(DnsBatch(deviceId.text, timestamp.text, seconds.0, queries))
  }

  lemma DnsHeaderLayout(deviceId: string, timestamp: string, seconds: string, list: string)
    ensures DnsHeaderLine(deviceId, timestamp, seconds) + list
      == FieldText(H1, deviceId, FieldText(H2, timestamp, H3 + (seconds + (",\"queries\":[" + list))))
  {
    assert "\",\"timestamp\":\"" == "\"" + H2 && "\",\"windowSeconds\":" == "\"" + H3;
    Nested(H1, deviceId, "\"", H2, timestamp, H3, seconds, ",\"queries\":[", list);
  }

  lemma Nested<T>(h1: seq<T>, a: seq<T>, q: seq<T>, h2: seq<T>, b: seq<T>, h3: seq<T>, c: seq<T>, h4: seq<T>, r: seq<T>)
    ensures (((((((h1 + a) + (q + h2)) + b) + (q + h3)) + c) + h4) + r)
      == h1 + (a + (q + (h2 + (b + (q + (h3 + (c + (h4 + r))))))))
  {
  }

  lemma DnsBodyMeans(deviceId: string, timestamp: string, windowSeconds: int, list: string)
    requires Plain(deviceId) && Plain(timestamp)
    ensures ReadDnsBody(DnsHeader(deviceId, timestamp, windowSeconds) + list) ==
      match ReadEntries(list, (s: string) => ReadDns(s), true)
      case None => None
      case Some(queries) => Some(DnsBatch(deviceId, timestamp, windowSeconds, queries))
  {
    var seconds, tail := IntText(windowSeconds), ",\"queries\":[" + list;
    DnsHeaderLayout(deviceId, timestamp, seconds, list);
    RawReadsBackIff(H1, deviceId, FieldText(H2, timestamp, H3 + (seconds + tail)));
    RawReadsBackIff(H2, timestamp, H3 + (seconds + tail));
    ExpectToken(H3, seconds + tail);
    IntReadsBack(windowSeconds, tail);
    ExpectToken(",\"queries\":[", list);
  }

  const D1: string := "{\"clientIp\":\""
  const D2: string := ",\"domain\":\""
  const D3: string := ",\"count\":"

  function ReadDns(s: string): Option<(DnsEvent, string)> {
    var ip :- ReadField(s, D1);
    var domain :- ReadField(ip.rest, D2);
    var count :- ReadCount(domain.rest, D3);
    var rest :- Expect(count.1, "}");
    if count.0 < TWO32 then Some((DnsEvent(DnsKey(ip.text, domain.text), count.0), rest)) else None
  }

  predicate DnsTextual(e: DnsEvent) {
    IsCString(e.key.clientIp) && IsCString(e.key.domain)
  }

  /** What the 32- and 512-byte buffers keep of a query. */
  function KeptQuery(e: DnsEvent): DnsEvent {
    DnsEvent(DnsKey(Kept(e.key.clientIp, 0, 0, 32), Kept(e.key.domain, 0, 0, 512)), e.count)
  }

  function KeptQueries(events: seq<DnsEvent>): (r: seq<DnsEvent>)
    ensures |r| == |events|
  {
    seq(|events|, i requires 0 <= i < |events| => KeptQuery(events[i]))
  }

  /** A query is kept whole exactly when the last byte of each field has room. */
  lemma QueryWholeIff(e: DnsEvent)
    ensures KeptQuery(e) == e <==> LastFits(e.key.clientIp, 32) && LastFits(e.key.domain, 512)
  {
    ExactIff(e.key.clientIp, 32);
    ExactIff(e.key.domain, 512);
  }

  lemma DnsLayout(ip: string, domain: string, count: string, rest: string)
    ensures DnsLine(ip, domain, count) + rest
      == FieldText(D1, ip, FieldText(D2, domain, D3 + (count + ("}" + rest))))
  {
  }

  lemma DnsReadsBack(e: DnsEvent, rest: string)
    requires DnsTextual(e)
    ensures ReadDns(DnsText(e) + rest) == Some((KeptQuery(e), rest))
  {
    var ip, domain, count := Escaped(e.key.clientIp, 32), Escaped(e.key.domain, 512), Decimal(e.count);
    var t3 := D3 + (count + ("}" + rest));
    var t2 := FieldText(D2, domain, t3);
    DnsLayout(ip, domain, count, rest);
    FieldReadsBack(D1, e.key.clientIp, 32, t2);
    FieldReadsBack(D2, e.key.domain, 512, t3);
    CountReadsBack(D3, e.count, "}" + rest);
    ExpectToken("}", rest);
  }

  lemma DnsUnderstood(e: DnsEvent)
    requires DnsTextual(e)
    ensures Understands((s: string) => ReadDns(s), DnsText(e), KeptQuery(e))
  {
    var read := (s: string) => ReadDns(s);
    forall rest ensures read(DnsText(e) + rest) == Some((KeptQuery(e), rest)) {
      DnsReadsBack(e, rest);
    }
  }

  /** The same for DNS batches. */
  lemma DnsBodyReadsBack(deviceId: string, events: seq<DnsEvent>, windowSeconds: int, timestamp: string)
    requires forall i :: 0 <= i < |events| ==> DnsTextual(events[i])
    requires DnsBody(deviceId, events, windowSeconds, timestamp).Some?
    ensures var header := DnsHeader(deviceId, timestamp, windowSeconds);
      var body := DnsBody(deviceId, events, windowSeconds, timestamp).value;
      var k := Printed(header, DnsTexts(events), DNS_RESERVE, DNS_BODY_MAX);
      ReadBatch(body, header, (s: string) => ReadDns(s)) == Some(KeptQueries(events)[..k])
  {
    var read := (s: string) => ReadDns(s);
    var entries, kept := DnsTexts(events), KeptQueries(events);
    forall j | 0 <= j < |entries| ensures Understands(read, entries[j], kept[j]) {
      DnsUnderstood(events[j]);
    }
    var header := DnsHeader(deviceId, timestamp, windowSeconds);
    BodyReadsBack(header, entries, kept, read, Printed(header, entries, DNS_RESERVE, DNS_BODY_MAX));
  }

  lemma DnsListWhole(deviceId: string, timestamp: string, windowSeconds: int, body: string, queries: seq<DnsEvent>)
    requires Plain(deviceId) && Plain(timestamp)
    requires
      ReadBatch(body, DnsHeader(deviceId, timestamp, windowSeconds), (s: string) => ReadDns(s)) == Some(queries)
    ensures ReadDnsBody(body) == Some(DnsBatch(deviceId, timestamp, windowSeconds, queries))
  {
    var header := DnsHeader(deviceId, timestamp, windowSeconds);
    var list := body[|header|..];
    assert body == header + list;
    DnsBodyMeans(deviceId, timestamp, windowSeconds, list);
  }

  /** The same with a plain device id and timestamp, header fields included. */
  lemma DnsBodyWhole(deviceId: string, events: seq<DnsEvent>, windowSeconds: int, timestamp: string)
    requires forall i :: 0 <= i < |events| ==> DnsTextual(events[i])
    requires DnsBody(deviceId, events, windowSeconds, timestamp).Some? && Plain(deviceId) && Plain(timestamp)
    ensures var header := DnsHeader(deviceId, timestamp, windowSeconds);
      var k := Printed(header, DnsTexts(events), DNS_RESERVE, DNS_BODY_MAX);
      ReadDnsBody(DnsBody(deviceId, events, windowSeconds, timestamp).value)
      == Some(DnsBatch(deviceId, timestamp, windowSeconds, KeptQueries(events)[..k]))
  {
    DnsBodyReadsBack(deviceId, events, windowSeconds, timestamp);
    var k := Printed(DnsHeader(deviceId, timestamp, windowSeconds), DnsTexts(events), DNS_RESERVE, DNS_BODY_MAX);
    DnsListWhole(deviceId, timestamp, windowSeconds, DnsBody(deviceId, events, windowSeconds, timestamp).value,
                 KeptQueries(events)[..k]);
  }

  // ----- Forensic samples -----

  const S1: string := "{\"timestamp\":\""
  const S2: string := ",\"protocol\":\""
  const S3: string := ",\"sourceIp\":\""
  const S4: string := ",\"destinationIp\":\""
  const S5: string := ",\"sourcePort\":"
  const S6: string := ",\"destinationPort\":"
  const S7: string := ",\"packetSize\":"

  datatype Sample = Sample(stamp: string, protocol: string, src: string, dst: string,
                           srcPort: nat, dstPort: nat, size: nat)

  /** What the 32-byte buffers keep of a sample. */
  function KeptSample(p: FxPacket, iso: int -> string): Sample {
    SampleOf(p, iso).(src := Kept(p.srcIp, 0, 0, 32), dst := Kept(p.dstIp, 0, 0, 32))
  }

  function KeptSamples(packets: seq<FxPacket>, iso: int -> string): (r: seq<Sample>)
    ensures |r| == |packets|
  {
    seq(|packets|, i requires 0 <= i < |packets| => KeptSample(packets[i], iso))
  }

  function SampleOf(p: FxPacket, iso: int -> string): Sample {
    Sample(iso(p.ts), if p.protocol == 6 then "TCP" else "UDP", p.srcIp, p.dstIp, p.srcPort, p.dstPort, p.size)
  }

  function SamplesOf(packets: seq<FxPacket>, iso: int -> string): (r: seq<Sample>)
    ensures |r| == |packets|
  {
    seq(|packets|, i requires 0 <= i < |packets| => SampleOf(packets[i], iso))
  }

  function ReadSample(s: string): Option<(Sample, string)> {
    var start :- ReadStart(s);
    var hosts :- ReadHosts(start.2);
    var ports :- ReadPorts(hosts.2);
    Some((Sample(start.0, start.1, hosts.0, hosts.1, ports.0, ports.1, ports.2), ports.3))
  }

  function ReadStart(s: string): Option<(string, string, string)> {
    var stamp :- ReadField(s, S1);
    var protocol :- ReadField(stamp.rest, S2);
    Some((stamp.text, protocol.text, protocol.rest))
  }

  function ReadHosts(s: string): Option<(string, string, string)> {
    var src :- ReadField(s, S3);
    var dst :- ReadField(src.rest, S4);
    Some((src.text, dst.text, dst.rest))
  }

  function ReadPorts(s: string): Option<(nat, nat, nat, string)> {
    var srcPort :- ReadCount(s, S5);
    var dstPort :- ReadCount(srcPort.1, S6);
    var size :- ReadCount(dstPort.1, S7);
    var rest :- Expect(size.1, "}");
    Some((srcPort.0, dstPort.0, size.0, rest))
  }

  datatype SampleBatch = SampleBatch(deviceId: string, samples: seq<Sample>)

  /** A whole forensic batch, header included. */
  function ReadSampleBody(body: string): Option<SampleBatch> {
    var deviceId :- ReadField(body, H1);
    var list :- Expect(deviceId.rest, ",\"packets\":[");
    var samples :- ReadEntries(list, (s: string) => ReadSample(s), true);
    Some(SampleBatch(deviceId.text, samples))
  }

  lemma ForensicsHeaderLayout(deviceId: string, list: string)
    ensures ForensicsHeader(deviceId) + list == FieldText(H1, deviceId, ",\"packets\":[" + list)
  {
  }

  lemma SampleBodyMeans(deviceId: string, list: string)
    requires Plain(deviceId)
    ensures ReadSampleBody(ForensicsHeader(deviceId) + list) ==
      match ReadEntries(list, (s: string) => ReadSample(s), true)
      case None => None
      case Some(samples) => Some(SampleBatch(deviceId, samples))
  {
    ForensicsHeaderLayout(deviceId, list);
    RawReadsBackIff(H1, deviceId, ",\"packets\":[" + list);
    ExpectToken(",\"packets\":[", list);
  }

  /** A forensic body whose list reads back, reads back whole. */
  lemma SampleBodyWhole(deviceId: string, body: string, samples: seq<Sample>)
    requires Plain(deviceId)
    requires ReadBatch(body, ForensicsHeader(deviceId), (s: string) => ReadSample(s)) == Some(samples)
    ensures ReadSampleBody(body) == Some(SampleBatch(deviceId, samples))
  {
    var header := ForensicsHeader(deviceId);
    var list := body[|header|..];
    assert body == header + list;
    SampleBodyMeans(deviceId, list);
  }

  lemma StartLayout(stamp: string, protocol: string, rest: string)
    ensures SampleStart(stamp, protocol) + rest == FieldText(S1, stamp, FieldText(S2, protocol, rest))
  {
  }

  lemma HostsLayout(src: string, dst: string, rest: string)
    ensures SampleHosts(src, dst) + rest == FieldText(S3, src, FieldText(S4, dst, rest))
  {
  }

  lemma PortsLayout(srcPort: string, dstPort: string, size: string, rest: string)
    ensures SamplePorts(srcPort, dstPort, size) + rest
      == S5 + (srcPort + (S6 + (dstPort + (S7 + (size + ("}" + rest))))))
  {
  }

  lemma StartReadsBack(stamp: string, protocol: string, rest: string)
    requires Plain(stamp) && Plain(protocol)
    ensures ReadStart(SampleStart(stamp, protocol) + rest) == Some((stamp, protocol, rest))
  {
    StartLayout(stamp, protocol, rest);
    PlainFieldReadsBack(S1, stamp, FieldText(S2, protocol, rest));
    PlainFieldReadsBack(S2, protocol, rest);
  }

  lemma HostsReadBack(src: string, dst: string, rest: string)
    requires IsCString(src) && IsCString(dst)
    ensures ReadHosts(SampleHosts(Escaped(src, 32), Escaped(dst, 32)) + rest)
         == Some((Kept(src, 0, 0, 32), Kept(dst, 0, 0, 32), rest))
  {
    HostsLayout(Escaped(src, 32), Escaped(dst, 32), rest);
    FieldReadsBack(S3, src, 32, FieldText(S4, Escaped(dst, 32), rest));
    FieldReadsBack(S4, dst, 32, rest);
  }

  lemma PortsReadBack(srcPort: nat, dstPort: nat, size: nat, rest: string)
    ensures ReadPorts(SamplePorts(Decimal(srcPort), Decimal(dstPort), Decimal(size)) + rest)
         == Some((srcPort, dstPort, size, rest))
  {
    PortsLayout(Decimal(srcPort), Decimal(dstPort), Decimal(size), rest);
    var t3 := S7 + (Decimal(size) + ("}" + rest));
    CountReadsBack(S5, srcPort, S6 + (Decimal(dstPort) + t3));
    CountReadsBack(S6, dstPort, t3);
    CountReadsBack(S7, size, "}" + rest);
    ExpectToken("}", rest);
  }

  predicate SampleTextual(p: FxPacket, iso: int -> string) {
    IsCString(p.srcIp) && IsCString(p.dstIp) && Plain(iso(p.ts))
  }

  lemma SampleReadsBack(p: FxPacket, iso: int -> string, rest: string)
    requires SampleTextual(p, iso)
    ensures ReadSample(SampleText(p, iso) + rest) == Some((KeptSample(p, iso), rest))
  {
    var start := SampleStart(iso(p.ts), ProtocolText(p.protocol));
    var hosts := SampleHosts(Escaped(p.srcIp, 32), Escaped(p.dstIp, 32));
    var ports := SamplePorts(Decimal(p.srcPort), Decimal(p.dstPort), Decimal(p.size));
    Regroup(start + hosts, ports, rest);
    Regroup(start, hosts, ports + rest);
    StartReadsBack(iso(p.ts), ProtocolText(p.protocol), hosts + (ports + rest));
    HostsReadBack(p.srcIp, p.dstIp, ports + rest);
    PortsReadBack(p.srcPort, p.dstPort, p.size, rest);
  }

  lemma SampleUnderstood(p: FxPacket, iso: int -> string)
    requires SampleTextual(p, iso)
    ensures Understands((s: string) => ReadSample(s), SampleText(p, iso), KeptSample(p, iso))
  {
    var read := (s: string) => ReadSample(s);
    forall rest ensures read(SampleText(p, iso) + rest) == Some((KeptSample(p, iso), rest)) {
      SampleReadsBack(p, iso, rest);
    }
  }

  lemma {:induction false} ReportedStem(packets: seq<FxPacket>, n: nat)
    requires n <= |packets|
    ensures forall p :: p in ReportedOnly(packets, n) ==> p in packets
  {
    if n > 0 {
      ReportedStem(packets, n - 1);
    }
  }

  lemma SamplesUnderstood(packets: seq<FxPacket>, iso: int -> string, j: nat)
    requires forall i :: 0 <= i < |packets| ==> SampleTextual(packets[i], iso)
    requires j < |SampleTexts(packets, iso)|
    ensures var samples := KeptSamples(ReportedOnly(packets, |packets|), iso);
      j < |samples| && Understands((s: string) => ReadSample(s), SampleTexts(packets, iso)[j], samples[j])
  {
    var reported := ReportedOnly(packets, |packets|);
    ReportedStem(packets, |packets|);
    assert reported[j] in reported;
    SampleUnderstood(reported[j], iso);
  }

  /** The same for forensic batches, over the TCP and UDP samples. */
  lemma ForensicsBodyReadsBack(deviceId: string, packets: seq<FxPacket>, iso: int -> string)
    requires forall i :: 0 <= i < |packets| ==> SampleTextual(packets[i], iso)
    requires ForensicsBody(deviceId, packets, iso).Some?
    ensures var header, samples := ForensicsHeader(deviceId), KeptSamples(ReportedOnly(packets, |packets|), iso);
      var k := Printed(header, SampleTexts(packets, iso), ENTRY_RESERVE, FORENSICS_BODY_MAX);
      k <= |samples| &&
      ReadBatch(ForensicsBody(deviceId, packets, iso).value, header, (s: string) => ReadSample(s)) == Some(samples[..k])
  {
    var read := (s: string) => ReadSample(s);
    var entries := SampleTexts(packets, iso);
    var samples := KeptSamples(ReportedOnly(packets, |packets|), iso);
    forall j | 0 <= j < |entries| ensures Understands(read, entries[j], samples[j]) {
      SamplesUnderstood(packets, iso, j);
    }
    var header := ForensicsHeader(deviceId);
    BodyReadsBack(header, entries, samples, read, Printed(header, entries, ENTRY_RESERVE, FORENSICS_BODY_MAX));
  }

  // ----- End to end -----

  lemma PlainSurvives(s: string, size: nat)
    requires Plain(s) && 2 * |s| < size
    ensures IsCString(s) && Kept(s, 0, 0, size) == s
  {
    DoubleBufferIsExact(s, size);
  }

  /** The forensic batch of a flush arrives whole: every TCP and UDP sample, in order, field by
      field, for addresses of at most 15 printable characters. */
  lemma ForensicsRoundTrip(deviceId: string, packets: seq<FxPacket>, iso: int -> string)
    requires 0 < |deviceId| <= 63 && |packets| <= FX_SAMPLE_MAX
    requires forall t :: |iso(t)| <= 31 && Plain(iso(t))
    requires forall p :: p in packets ==> Plain(p.srcIp) && |p.srcIp| <= 15 && Plain(p.dstIp) && |p.dstIp| <= 15
    requires |ReportedOnly(packets, |packets|)| > 0
    ensures ForensicsBody(deviceId, packets, iso).Some?
    ensures var body := ForensicsBody(deviceId, packets, iso).value;
      ReadBatch(body, ForensicsHeader(deviceId), (s: string) => ReadSample(s))
      == Some(SamplesOf(ReportedOnly(packets, |packets|), iso))
  {
    forall i | 0 <= i < |packets| ensures SampleTextual(packets[i], iso) {
      assert packets[i] in packets;
      PlainSurvives(packets[i].srcIp, 32);
      PlainSurvives(packets[i].dstIp, 32);
    }
    ForensicsAllSent(deviceId, packets, iso);
    WholeBodyReadsBack(ForensicsHeader(deviceId), packets, iso);
    AllKept(packets, iso);
  }

  lemma AllKept(packets: seq<FxPacket>, iso: int -> string)
    requires forall p :: p in packets ==> Plain(p.srcIp) && |p.srcIp| <= 15 && Plain(p.dstIp) && |p.dstIp| <= 15
    ensures KeptSamples(ReportedOnly(packets, |packets|), iso) == SamplesOf(ReportedOnly(packets, |packets|), iso)
  {
    var r := ReportedOnly(packets, |packets|);
    ReportedStem(packets, |packets|);
    forall i | 0 <= i < |r| ensures KeptSample(r[i], iso) == SampleOf(r[i], iso) {
      assert r[i] in packets;
      PlainSurvives(r[i].srcIp, 32);
      PlainSurvives(r[i].dstIp, 32);
    }
  }

  lemma WholeBodyReadsBack(header: string, packets: seq<FxPacket>, iso: int -> string)
    requires forall i :: 0 <= i < |packets| ==> SampleTextual(packets[i], iso)
    ensures var entries, samples := SampleTexts(packets, iso), KeptSamples(ReportedOnly(packets, |packets|), iso);
      ReadBatch(BodyOf(header, entries, |entries|), header, (s: string) => ReadSample(s)) == Some(samples)
  {
    var read := (s: string) => ReadSample(s);
    var entries := SampleTexts(packets, iso);
    var samples := KeptSamples(ReportedOnly(packets, |packets|), iso);
    forall j | 0 <= j < |entries| ensures Understands(read, entries[j], samples[j]) {
      SamplesUnderstood(packets, iso, j);
    }
    BodyReadsBack(header, entries, samples, read, |entries|);
    assert samples[..|entries|] == samples;
  }
}
