/** An independent encoder for Ethernet / IPv4 / TCP-or-UDP frames (section 3.1 of RFC 791) and DNS
    queries (section 4.1.2 of RFC 1035), and the round trips through the parser. */
module FrameCodec {
  import opened Machine
  import opened Packets
  import opened DottedQuads
  import opened DnsNames
  import opened PacketParser

  /** Everything in a frame, the fields the parser ignores included as raw octets. */
  datatype Frame = Frame(
    macs: seq<u8>,       // both Ethernet addresses
    service: seq<u8>,    // type of service to time to live
    protocol: u8,
    checksum: seq<u8>,
    src: Ipv4,
    dst: Ipv4,
    options: seq<u8>,
    srcPort: u16,
    dstPort: u16,
    payload: seq<u8>)    // whatever follows the two port numbers

  predicate WellFormed(f: Frame) {
    |f.macs| == 12 && |f.service| == 8 && |f.checksum| == 2 &&
    |f.options| % 4 == 0 && |f.options| <= 40 &&
    (f.protocol == PROTO_TCP || f.protocol == PROTO_UDP)
  }

  function Bytes16(x: u16): (b: seq<u8>)
    ensures |b| == 2 && U16(b[0], b[1]) == x
  {
    [x / 256, x % 256]
  }

  function Quad(ip: Ipv4): seq<u8> {
    [ip.a, ip.b, ip.c, ip.d]
  }

  /** Ethernet header and the fixed part of the IP header. */
  function Header(f: Frame): (h: seq<u8>)
    requires WellFormed(f)
    ensures |h| == 34
    ensures h[12] == 8 && h[13] == 0 && h[14] == 69 + |f.options| / 4 && h[23] == f.protocol
    ensures Address(h, 26) == f.src && Address(h, 30) == f.dst
  {
    f.macs + [8, 0, 69 + |f.options| / 4] + f.service + [f.protocol] + f.checksum + Quad(f.src) + Quad(f.dst)
  }

  /** Options, ports and payload. */
  function Body(f: Frame): (b: seq<u8>)
    ensures |b| == 4 + |f.options| + |f.payload|
  {
    f.options + Bytes16(f.srcPort) + Bytes16(f.dstPort) + f.payload
  }

  function Encode(f: Frame): (b: seq<u8>)
    requires WellFormed(f)
    ensures |b| == 38 + |f.options| + |f.payload|
  {
    Header(f) + Body(f)
  }

  lemma Halves<T>(a: seq<T>, b: seq<T>)
    ensures forall i :: 0 <= i < |a| ==> (a + b)[i] == a[i]
    ensures forall i :: 0 <= i < |b| ==> (a + b)[|a| + i] == b[i]
    ensures (a + b)[..|a|] == a && (a + b)[|a|..] == b
  {
  }

  lemma BodyBytes(f: Frame)
    ensures var b, t := Body(f), |f.options|;
      b[..t] == f.options && U16(b[t], b[t + 1]) == f.srcPort && U16(b[t + 2], b[t + 3]) == f.dstPort &&
      b[t + 4..] == f.payload
  {
  }

  lemma EncodedBytes(f: Frame)
    requires WellFormed(f)
    ensures var b, t := Encode(f), 34 + |f.options|;
      b[..34] == Header(f) && b[34..t] == f.options &&
      U16(b[t], b[t + 1]) == f.srcPort && U16(b[t + 2], b[t + 3]) == f.dstPort && b[t + 4..] == f.payload
  {
    var b, t, body := Encode(f), 34 + |f.options|, Body(f);
    Halves(Header(f), body);
    BodyBytes(f);
    SliceOfSlice(b, 34, |b|, 0, |f.options|);
    SliceOfSlice(b, 34, |b|, |f.options| + 4, |body|);
    assert b[t] == body[|f.options|] && b[t + 1] == body[|f.options| + 1];
    assert b[t + 2] == body[|f.options| + 2] && b[t + 3] == body[|f.options| + 3];
  }

  /** The version and header-length byte. */
  lemma VersionByte(options: nat)
    requires options % 4 == 0 && options <= 40
    ensures (69 + options / 4) / 16 == 4 && (69 + options / 4) % 16 * 4 == 20 + options
  {
  }

  lemma OffsetOfEncoded(f: Frame)
    requires WellFormed(f)
    ensures TransportOffset(Encode(f)) == Some(34 + |f.options|)
    ensures Address(Encode(f), 26) == f.src && Address(Encode(f), 30) == f.dst
    ensures Encode(f)[23] == f.protocol
  {
    Halves(Header(f), Body(f));
    VersionByte(|f.options|);
  }

  /** Every well-formed frame parses to its own fields. */
  lemma FrameRoundTrip(f: Frame)
    requires WellFormed(f)
    ensures var b := Encode(f);
      Parsed(b) == Some(Record(f.src, f.dst, f.protocol, f.srcPort, f.dstPort, |b|,
                               QueryName(b, 34 + |f.options|)))
  {
    OffsetOfEncoded(f);
    EncodedBytes(f);
  }

  /** The same field by field: addresses, protocol, ports and the received length. */
  lemma FrameFields(f: Frame)
    requires WellFormed(f)
    ensures var b := Encode(f);
      Parsed(b).Some? &&
      var p := Parsed(b).value;
      p.srcIp == QuadText(f.src) && p.dstIp == QuadText(f.dst) && p.protocol == f.protocol &&
      p.srcPort == f.srcPort && p.dstPort == f.dstPort && p.packetSize == |b| == 38 + |f.options| + |f.payload|
  {
    FrameRoundTrip(f);
  }

  /** And for any accepted frame octet by octet, `t` being where its header length puts the ports. */
  lemma ParsedOctets(b: seq<u8>) returns (t: nat)
    requires Parsed(b).Some?
    ensures 34 <= t && t + 4 <= |b| && t == 14 + b[14] % 16 * 4
    ensures var p := Parsed(b).value;
      p.srcIp == QuadText(Ipv4(b[26], b[27], b[28], b[29])) &&
      p.dstIp == QuadText(Ipv4(b[30], b[31], b[32], b[33])) &&
      p.protocol == b[23] && (b[23] == 6 || b[23] == 17) &&
      p.srcPort == b[t] as int * 256 + b[t + 1] && p.dstPort == b[t + 2] as int * 256 + b[t + 3] &&
      p.packetSize == |b| && (!p.isDnsQuery ==> p.dnsName == "")
  {
    t := TransportOffset(b).value;
  }

  // ----- Only encodings are accepted -----

  function Decode(b: seq<u8>, t: nat): Frame
    requires 34 <= t && t + 4 <= |b|
  {
    Frame(b[..12], b[15..23], b[23], b[24..26], Address(b, 26), Address(b, 30), b[34..t],
          U16(b[t], b[t + 1]), U16(b[t + 2], b[t + 3]), b[t + 4..])
  }

  lemma HeaderDecoded(b: seq<u8>, t: nat)
    requires TransportOffset(b) == Some(t)
    ensures WellFormed(Decode(b, t)) && Header(Decode(b, t)) == b[..34]
  {
    var f := Decode(b, t);
    assert b[12] == 8 && b[13] == 0;
    assert b[14] == 64 + b[14] % 16 && |f.options| == (b[14] % 16 - 5) * 4;
    assert b[..34] == b[..12] + [b[12], b[13], b[14]] + b[15..23] + [b[23]] + b[24..26] +
                      [b[26], b[27], b[28], b[29]] + [b[30], b[31], b[32], b[33]];
  }

  lemma BodyDecoded(b: seq<u8>, t: nat)
    requires 34 <= t && t + 4 <= |b|
    ensures Body(Decode(b, t)) == b[34..]
  {
    var f := Decode(b, t);
    assert Bytes16(f.srcPort) == b[t..t + 2] && Bytes16(f.dstPort) == b[t + 2..t + 4];
    assert b[34..] == b[34..t] + b[t..t + 2] + b[t + 2..t + 4] + b[t + 4..];
  }

  lemma EncodeDecode(b: seq<u8>)
    requires TransportOffset(b).Some?
    ensures var f := Decode(b, TransportOffset(b).value); WellFormed(f) && Encode(f) == b
  {
    var t := TransportOffset(b).value;
    HeaderDecoded(b, t);
    BodyDecoded(b, t);
    assert b == b[..34] + b[34..];
  }

  /** The parser accepts exactly the encodings of well-formed frames. */
  lemma AcceptsExactlyEncodings(b: seq<u8>)
    ensures Parsed(b).Some? <==> exists f :: WellFormed(f) && Encode(f) == b
  {
    if Parsed(b).Some? {
      EncodeDecode(b);
    }
    forall f | WellFormed(f) && Encode(f) == b ensures Parsed(b).Some? {
      OffsetOfEncoded(f);
    }
  }

  // ----- DNS queries -----

  /** The UDP payload of a DNS message whose first question is the given name. */
  function QueryPayload(udpTail: seq<u8>, dnsHeader: seq<u8>, labels: Labels, rest: seq<u8>): seq<u8>
    requires LabelsFit(labels)
  {
    udpTail + dnsHeader + EncodeFrom(labels, 0) + rest
  }

  predicate IsQueryHeader(dnsHeader: seq<u8>) {
    |dnsHeader| == 12 && dnsHeader[2] < 128 && U16(dnsHeader[4], dnsHeader[5]) >= 1
  }

  lemma QueryBytes(f: Frame, udpTail: seq<u8>, dnsHeader: seq<u8>, labels: Labels, rest: seq<u8>)
    requires WellFormed(f) && f.protocol == PROTO_UDP && f.dstPort == DNS_PORT
    requires |udpTail| == 4 && IsQueryHeader(dnsHeader) && LabelsFit(labels)
    requires f.payload == QueryPayload(udpTail, dnsHeader, labels, rest)
    ensures var b, t := Encode(f), 34 + |f.options|;
      MayCarryQuestion(b, t) && At(b, t + 20, EncodeFrom(labels, 0))
  {
    var b, t := Encode(f), 34 + |f.options|;
    var code := EncodeFrom(labels, 0);
    OffsetOfEncoded(f);
    EncodedBytes(f);
    PayloadBytes(udpTail, dnsHeader, code, rest);
    var p := f.payload;
    assert b[t + 4..] == p;
    assert b[t + 10] == b[t + 4..][6] && b[t + 12] == b[t + 4..][8] && b[t + 13] == b[t + 4..][9];
    assert b[t + 10] == dnsHeader[2] && b[t + 12] == dnsHeader[4] && b[t + 13] == dnsHeader[5];
    SliceOfSlice(b, t + 4, |b|, 16, 16 + |code|);
    assert b[t + 20..t + 20 + |code|] == code;
  }

  lemma PayloadBytes(udpTail: seq<u8>, dnsHeader: seq<u8>, code: seq<u8>, rest: seq<u8>)
    requires |udpTail| == 4 && |dnsHeader| == 12
    ensures var p := udpTail + dnsHeader + code + rest;
      p[6] == dnsHeader[2] && p[8] == dnsHeader[4] && p[9] == dnsHeader[5] && p[16..16 + |code|] == code
  {
    var start := udpTail + dnsHeader;
    var p := start + code + rest;
    assert p[6] == start[6] && p[8] == start[8] && p[9] == start[9];
    assert p == start + (code + rest);
    Halves(udpTail, dnsHeader);
    assert start[6] == dnsHeader[2] && start[8] == dnsHeader[4] && start[9] == dnsHeader[5];
    Halves(start, code + rest);
    Halves(code, rest);
    SliceOfSlice(p, 16, |p|, 0, |code|);
  }

  /** Every query for a reportable name yields that name up to its first zero octet; so the name comes
      back whole exactly when no label holds one. */
  lemma QueryRoundTrip(f: Frame, udpTail: seq<u8>, dnsHeader: seq<u8>, labels: Labels, rest: seq<u8>)
    requires WellFormed(f) && f.protocol == PROTO_UDP && f.dstPort == DNS_PORT
    requires |udpTail| == 4 && IsQueryHeader(dnsHeader) && Reportable(labels)
    requires f.payload == QueryPayload(udpTail, dnsHeader, labels, rest)
    ensures var p := Parsed(Encode(f));
      p.Some? && p.value.isDnsQuery && p.value.dnsName == CString(Joined(labels)) &&
      (p.value.dnsName == Joined(labels) <==> NoZeroOctet(labels, 0))
  {
    QueryBytes(f, udpTail, dnsHeader, labels, rest);
    NameRead(Encode(f), 34 + |f.options|, labels);
    FrameRoundTrip(f);
    JoinedIsCString(labels);
    CStringWhole(Joined(labels));
  }

  lemma NameRead(b: seq<u8>, t: nat, labels: Labels)
    requires 34 <= t && t + 4 <= |b| && MayCarryQuestion(b, t)
    requires Reportable(labels) && At(b, t + 20, EncodeFrom(labels, 0))
    ensures QueryName(b, t) == Some(CString(Joined(labels)))
  {
    WalkReadsEncoding(b, t + 20, 0, labels, 0);
    NameOfDotted(labels);
  }

  lemma NameOfDotted(labels: Labels)
    requires |labels| > 0
    ensures NameOfWalk(Some(Dotted(labels, 0))) == Some(CString(Joined(labels)))
  {
    DottedEndsInDot(labels, 0);
  }

  lemma {:induction false} CStringWhole(s: string)
    ensures CString(s) == s <==> IsCString(s)
  {
    if |s| > 0 && s[0] != '\0' {
      CStringWhole(s[1..]);
      assert s == [s[0]] + s[1..];
      assert CString(s)[1..] == CString(s[1..]);
    }
  }

  ghost predicate QuestionNames(b: seq<u8>, t: nat, labels: Labels) {
    Reportable(labels) && At(b, t + 20, EncodeFrom(labels, 0))
  }

  /** A packet is reported as a DNS query exactly when it is a UDP message to port 53 that may carry
      a question and its name is the encoding of a reportable name: no compression pointer, no
      overrun, no root name, no oversized name. */
  lemma ReportedExactly(b: seq<u8>)
    ensures Parsed(b).Some? && Parsed(b).value.isDnsQuery <==>
      TransportOffset(b).Some? && MayCarryQuestion(b, TransportOffset(b).value) &&
      exists labels :: QuestionNames(b, TransportOffset(b).value, labels)
  {
    if TransportOffset(b).Some? && MayCarryQuestion(b, TransportOffset(b).value) {
      var t := TransportOffset(b).value;
      if QueryName(b, t).Some? {
        var labels := WalkFindsEncoding(b, t + 20, 0);
        assert |labels| > 0;
        assert QuestionNames(b, t, labels);
      }
      forall labels | QuestionNames(b, t, labels) ensures QueryName(b, t).Some? {
        NameRead(b, t, labels);
      }
    }
  }

  /** The frame is a UDP message to port 53 with an unanswered first question for a reportable name. */
  predicate IsQueryFrame(f: Frame, udpTail: seq<u8>, dnsHeader: seq<u8>, labels: Labels, rest: seq<u8>) {
    WellFormed(f) && f.protocol == 17 && f.dstPort == 53 && |udpTail| == 4 && IsQueryHeader(dnsHeader) &&
    Reportable(labels) && f.payload == QueryPayload(udpTail, dnsHeader, labels, rest)
  }

  ghost predicate EncodesQuery(b: seq<u8>) {
    exists f, udpTail, dnsHeader, labels, rest ::
      IsQueryFrame(f, udpTail, dnsHeader, labels, rest) && Encode(f) == b
  }

  /** So the frames reported as DNS queries are exactly the encodings of such query frames. */
  lemma QueriesExactlyEncodings(b: seq<u8>)
    ensures Parsed(b).Some? && Parsed(b).value.isDnsQuery <==> EncodesQuery(b)
  {
    ReportedExactly(b);
    if Parsed(b).Some? && Parsed(b).value.isDnsQuery {
      var t := TransportOffset(b).value;
      var labels :| QuestionNames(b, t, labels);
      ReportedEncodes(b, t, labels);
    }
    if EncodesQuery(b) {
      var f, udpTail, dnsHeader, labels, rest :|
        IsQueryFrame(f, udpTail, dnsHeader, labels, rest) && Encode(f) == b;
      QueryRoundTrip(f, udpTail, dnsHeader, labels, rest);
    }
  }

  lemma ReportedEncodes(b: seq<u8>, t: nat, labels: Labels)
    requires TransportOffset(b) == Some(t) && MayCarryQuestion(b, t) && QuestionNames(b, t, labels)
    ensures EncodesQuery(b)
  {
    EncodeDecode(b);
    var f, code := Decode(b, t), EncodeFrom(labels, 0);
    var udpTail, dnsHeader, rest := b[t + 4..t + 8], b[t + 8..t + 20], b[t + 20 + |code|..];
    assert dnsHeader[2] == b[t + 10] && dnsHeader[4] == b[t + 12] && dnsHeader[5] == b[t + 13];
    assert b[t + 4..] == udpTail + dnsHeader + b[t + 20..t + 20 + |code|] + rest;
    assert IsQueryFrame(f, udpTail, dnsHeader, labels, rest);
  }

  /** Section 2.3.4 of RFC 1035: labels of at most 63 octets, names of at most 255 with the root. */
  predicate LegalName(labels: Labels) {
    |labels| > 0 && LabelsFit(labels) && |EncodeFrom(labels, 0)| <= 255
  }

  /** The parser's limit on labels is the legal one. Its limit on names covers every legal non-root
      name, and exactly one octet more. */
  lemma LegalNamesReportable(labels: Labels)
    requires |labels| > 0
    ensures LabelsFit(labels) <==> forall i :: 0 <= i < |labels| ==> 1 <= |labels[i]| <= 63
    ensures LabelsFit(labels) ==> (Reportable(labels) <==> |EncodeFrom(labels, 0)| <= 256)
    ensures LegalName(labels) ==> Reportable(labels)
  {
    if LabelsFit(labels) {
      EncodedLength(labels, 0);
    }
  }

  lemma {:induction false} EncodedLength(labels: Labels, k: nat)
    requires k <= |labels| && LabelsFit(labels)
    ensures |EncodeFrom(labels, k)| == WireLength(labels, k) + 1
    decreases |labels| - k
  {
    if k < |labels| {
      EncodedLength(labels, k + 1);
    }
  }

  // ----- Frames with nothing special in them -----

  function Zeros(n: nat): (b: seq<u8>)
    ensures |b| == n
  {
    seq(n, _ => 0)
  }

  function PlainFrame(src: Ipv4, dst: Ipv4, protocol: u8, srcPort: u16, dstPort: u16, payload: seq<u8>): Frame {
    Frame(Zeros(12), Zeros(8), protocol, Zeros(2), src, dst, [], srcPort, dstPort, payload)
  }

  lemma PlainFrameParses(src: Ipv4, dst: Ipv4, protocol: u8, srcPort: u16, dstPort: u16)
    requires protocol == PROTO_TCP || (protocol == PROTO_UDP && dstPort != DNS_PORT)
    ensures Parsed(Encode(PlainFrame(src, dst, protocol, srcPort, dstPort, [])))
         == Some(Record(src, dst, protocol, srcPort, dstPort, 38, None))
  {
    var f := PlainFrame(src, dst, protocol, srcPort, dstPort, []);
    FrameRoundTrip(f);
    OffsetOfEncoded(f);
    EncodedBytes(f);
  }

  const NAME_SERVER := Ipv4(8, 8, 8, 8)
  const QUERY_HEADER: seq<u8> := [0, 0, 1, 0, 0, 1, 0, 0, 0, 0, 0, 0]

  /** A query with one question of type A, class IN. */
  function QueryFrame(src: Ipv4, labels: Labels): Frame
    requires LabelsFit(labels)
  {
    PlainFrame(src, NAME_SERVER, PROTO_UDP, 40000, DNS_PORT, QueryPayload(Zeros(4), QUERY_HEADER, labels, [0, 1, 0, 1]))
  }

  lemma QueryFrameParses(src: Ipv4, labels: Labels)
    requires Reportable(labels)
    ensures var b := Encode(QueryFrame(src, labels));
      Parsed(b) == Some(Record(src, NAME_SERVER, PROTO_UDP, 40000, DNS_PORT, |b|, Some(CString(Joined(labels)))))
  {
    var f := QueryFrame(src, labels);
    FrameRoundTrip(f);
    QueryBytes(f, Zeros(4), QUERY_HEADER, labels, [0, 1, 0, 1]);
    NameRead(Encode(f), 34, labels);
  }

  // ----- Where names are not what section 2.3.4 of RFC 1035 allows -----

  /** A zero octet inside a label cuts the reported name short. */
  lemma ZeroOctetCutsName(src: Ipv4)
    ensures var labels: Labels := [[97, 0, 98]];
      Reportable(labels) && Joined(labels) == ['a', '\0', 'b'] &&
      Parsed(Encode(QueryFrame(src, labels))).value.dnsName == "a"
  {
    var labels: Labels := [[97, 0, 98]];
    assert Dotted(labels, 1) == "" && WireLength(labels, 1) == 0;
    assert Dotted(labels, 0) == ['a', '\0', 'b', '.'];
    assert CString(['b']) == "b";
    assert Joined(labels)[1..] == ['\0', 'b'] && CString(['\0', 'b']) == "";
    QueryFrameParses(src, labels);
  }

  function Letters(n: nat): (l: seq<u8>)
    ensures |l| == n && 0 !in l
  {
    seq(n, _ => 97)
  }

  lemma ReportedWhole(src: Ipv4, labels: Labels)
    requires Reportable(labels) && NoZeroOctet(labels, 0)
    ensures var p := Parsed(Encode(QueryFrame(src, labels)));
      p.Some? && p.value.isDnsQuery && p.value.dnsName == Joined(labels)
  {
    QueryFrameParses(src, labels);
    JoinedIsCString(labels);
    CStringWhole(Joined(labels));
  }

  /** Three labels of 63 letters and one of 62. */
  function Oversized(): (labels: Labels)
    ensures LabelsFit(labels) && NoZeroOctet(labels, 0) && |labels| == 4
  {
    [Letters(63), Letters(63), Letters(63), Letters(62)]
  }

  lemma OversizedLength()
    ensures WireLength(Oversized(), 0) == 255
  {
    var labels := Oversized();
    assert WireLength(labels, 3) == 63;
    assert WireLength(labels, 2) == 127;
    assert WireLength(labels, 1) == 191;
  }

  /** A name of 256 octets, one more than is legal, is reported whole. */
  lemma OversizedNameReported(src: Ipv4)
    ensures !LegalName(Oversized()) && |EncodeFrom(Oversized(), 0)| == 256
    ensures var p := Parsed(Encode(QueryFrame(src, Oversized())));
      p.Some? && p.value.isDnsQuery && p.value.dnsName == Joined(Oversized())
  {
    OversizedLength();
    EncodedLength(Oversized(), 0);
    ReportedWhole(src, Oversized());
  }
}
