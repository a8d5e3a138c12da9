/** Ethernet / IPv4 / TCP-or-UDP frame parsing with DNS query names, over a byte array holding
    exactly the received bytes, so that Dafny's bounds checks are the memory-safety claim. */
module PacketParser {
  import opened Machine
  import opened Packets
  import opened DottedQuads
  import opened DnsNames

  const ETH_HEADER: nat := 14
  const IP_HEADER: nat := 20
  const ETH_P_IP: u16 := 0x0800
  const DNS_PORT: u16 := 53

  function U16(hi: u8, lo: u8): u16 {
    hi * 256 + lo
  }

  /** Where the transport header starts, when the frame is one the parser accepts. */
  function TransportOffset(b: seq<u8>): (r: Option<nat>)
    ensures r.Some? ==> ETH_HEADER + IP_HEADER <= r.value && r.value + 4 <= |b|
  {
    if |b| < ETH_HEADER then None
    else if U16(b[12], b[13]) != ETH_P_IP then None
    else if |b| < ETH_HEADER + IP_HEADER then None
    else if b[14] / 16 != 4 then None
    else if b[14] % 16 * 4 < IP_HEADER then None
    else if |b| < ETH_HEADER + b[14] % 16 * 4 + 4 then None
    else if b[23] != PROTO_TCP && b[23] != PROTO_UDP then None
    else Some(ETH_HEADER + b[14] % 16 * 4)
  }

  /** A DNS message that may carry a question: UDP to port 53, a whole header, not a response, and
      at least one question. */
  predicate MayCarryQuestion(b: seq<u8>, t: nat)
    requires ETH_HEADER + IP_HEADER <= t && t + 4 <= |b|
  {
    b[23] == PROTO_UDP && U16(b[t + 2], b[t + 3]) == DNS_PORT && t + 20 <= |b| &&
    U16(b[t + 12], b[t + 13]) >= 1 && b[t + 10] < 128
  }

  /** The queried name, or `None` when the packet is not reported as a DNS query. The text is the
      C string in the name buffer, so it ends at the first zero octet of a label. */
  function QueryName(b: seq<u8>, t: nat): (r: Option<string>)
    requires ETH_HEADER + IP_HEADER <= t && t + 4 <= |b|
  {
    if !MayCarryQuestion(b, t) then None else NameOfWalk(Walk(b, t + 20, 0))
  }

  function NameOfWalk(w: Option<string>): Option<string> {
    match w
    case None => None
    case Some(s) => if |s| == 0 then None else Some(CString(s[..|s| - 1]))
  }

  function Address(b: seq<u8>, at: nat): Ipv4
    requires at + 4 <= |b|
  {
    Ipv4(b[at], b[at + 1], b[at + 2], b[at + 3])
  }

  /** What parsing any frame yields. */
  function Parsed(b: seq<u8>): Option<ParsedPacket> {
    match TransportOffset(b)
    case None => None
    case Some(t) =>
      Some(Record(Address(b, 26), Address(b, 30), b[23],
                  U16(b[t], b[t + 1]), U16(b[t + 2], b[t + 3]), |b|, QueryName(b, t)))
  }

  function Record(src: Ipv4, dst: Ipv4, protocol: u8, srcPort: u16, dstPort: u16, len: nat,
                  name: Option<string>): ParsedPacket
  {
    ParsedPacket(QuadText(src), QuadText(dst), protocol, srcPort, dstPort, len,
                 name.Some?, if name.Some? then name.value else "")
  }

  method ParsePacket(buffer: array<u8>) returns (out: Option<ParsedPacket>)
    ensures out == Parsed(buffer[..])
  {
    var offset := CheckHeaders(buffer);
    if offset.None? {
      return None;
    }
    var t := offset.value;
    var name := ParseQueryName(buffer, t);
    var src := Ipv4(buffer[26], buffer[27], buffer[28], buffer[29]);
    var dst := Ipv4(buffer[30], buffer[31], buffer[32], buffer[33]);
    ghost var b := buffer[..];
    assert src == Address(b, 26) && dst == Address(b, 30);
    out := Some(Record(src, dst, buffer[23],
                       U16(buffer[t], buffer[t + 1]), U16(buffer[t + 2], buffer[t + 3]),
                       buffer.Length, name));
  }

  method CheckHeaders(buffer: array<u8>) returns (offset: Option<nat>)
    ensures offset == TransportOffset(buffer[..])
  {
    var len := buffer.Length;
    if len < ETH_HEADER {
      return None;
    }
    if U16(buffer[12], buffer[13]) != ETH_P_IP {
      return None;
    }
    if len < ETH_HEADER + IP_HEADER {
      return None;
    }
    if buffer[14] / 16 != 4 {
      return None;
    }
    var ipHeaderLen := buffer[14] % 16 * 4;
    if ipHeaderLen < IP_HEADER {
      return None;
    }
    if len < ETH_HEADER + ipHeaderLen + 4 {
      return None;
    }
    if buffer[23] != PROTO_TCP && buffer[23] != PROTO_UDP {
      return None;
    }
    return Some(ETH_HEADER + ipHeaderLen);
  }

  method ParseQueryName(buffer: array<u8>, t: nat) returns (name: Option<string>)
    requires ETH_HEADER + IP_HEADER <= t && t + 4 <= buffer.Length
    ensures name == QueryName(buffer[..], t)
  {
    ghost var b := buffer[..];
    if buffer[23] != PROTO_UDP || U16(buffer[t + 2], buffer[t + 3]) != DNS_PORT {
      return None;
    }
    var dns := t + 8;
    if dns + 12 > buffer.Length {
      return None;
    }
    if U16(buffer[dns + 4], buffer[dns + 5]) < 1 || buffer[dns + 2] >= 128 {
      return None;
    }
    assert MayCarryQuestion(b, t);
    name := ReadName(buffer, dns + 12);
  }

  method ReadName(buffer: array<u8>, start: nat) returns (name: Option<string>)
    ensures name == NameOfWalk(Walk(buffer[..], start, 0))
  {
    var qname := new char[QNAME_SIZE](_ => '\0');
    var used := CopyLabels(buffer, start, qname);
    if used.None? || used.value == 0 {
      return None;
    }
    var n := used.value;
    ghost var walked := qname[..n];
    qname[n - 1] := '\0';
    assert qname[..n - 1] == walked[..n - 1];
    CStringCutsAtTerminator(qname[..], n - 1);
    name := Some(CString(qname[..]));
  }

  /** Copies labels into the name buffer, each followed by a dot; the count of bytes written, or
      `None` on a malformed, compressed or oversized name. */
  method CopyLabels(buffer: array<u8>, start: nat, qname: array<char>) returns (used: Option<nat>)
    requires qname.Length == QNAME_SIZE && buffer as object != qname
    modifies qname
    ensures used.Some? <==> Walk(buffer[..], start, 0).Some?
    ensures used.Some? ==> used.value < QNAME_SIZE && qname[..used.value] == Walk(buffer[..], start, 0).value
  {
    ghost var b := buffer[..];
    ghost var w := Walk(b, start, 0);
    var pos: nat, o: nat := start, 0;
    assert qname[..o] == "";
    PrependNothing(Walk(b, pos, o));
    while true
      invariant start <= pos && o <= QNAME_SIZE - 1 && buffer[..] == b
      invariant w == Prepend(qname[..o], Walk(b, pos, o))
      decreases buffer.Length - pos
    {
      if pos >= buffer.Length {
        return None;
      }
      var labelLen := buffer[pos];
      if labelLen == 0 {
        assert qname[..o] + "" == qname[..o];
        return Some(o);
      }
      if labelLen > MAX_LABEL {
        return None;
      }
      if pos + 1 + labelLen > buffer.Length {
        return None;
      }
      if o + labelLen + 1 > QNAME_SIZE - 1 {
        return None;
      }
      WalkStep(b, pos, o, qname[..o]);
      CopyLabel(buffer, pos, labelLen, qname, o);
      o := o + labelLen + 1;
      pos := pos + 1 + labelLen;
    }
  }

  method CopyLabel(buffer: array<u8>, pos: nat, labelLen: u8, qname: array<char>, o: nat)
    requires pos + 1 + labelLen <= buffer.Length && o + labelLen + 1 < qname.Length
    requires buffer as object != qname
    modifies qname
    ensures qname[..o + labelLen + 1] ==
      old(qname[..o]) + (Chars(buffer[pos + 1..pos + 1 + labelLen]) + ".")
  {
    ghost var label' := buffer[pos + 1..pos + 1 + labelLen];
    for j := 0 to labelLen as int
      invariant qname[..o] == old(qname[..o])
      invariant buffer[pos + 1..pos + 1 + labelLen] == label'
      invariant qname[o..o + j] == Chars(label')[..j]
    {
      assert buffer[pos + 1 + j] == label'[j];
      qname[o + j] := buffer[pos + 1 + j] as char;
      assert qname[o..o + j + 1] == qname[o..o + j] + [qname[o + j]];
    }
    qname[o + labelLen] := '.';
    assert qname[..o + labelLen + 1] == qname[..o] + qname[o..o + labelLen] + [qname[o + labelLen]];
  }

  lemma PrependNothing(r: Option<string>)
    ensures Prepend("", r) == r
  {
    if r.Some? {
      assert "" + r.value == r.value;
    }
  }

  /** One accepted label moves from the remaining walk to the text already written. */
  lemma WalkStep(b: seq<u8>, pos: nat, o: nat, written: string)
    requires pos < |b| && 0 < b[pos] <= MAX_LABEL
    requires pos + 1 + b[pos] <= |b| && o + b[pos] + 1 <= QNAME_SIZE - 1
    ensures var piece := Chars(b[pos + 1..pos + 1 + b[pos]]) + ".";
      Prepend(written, Walk(b, pos, o))
      == Prepend(written + piece, Walk(b, pos + 1 + b[pos], o + b[pos] + 1))
  {
    var piece, r := Chars(b[pos + 1..pos + 1 + b[pos]]) + ".", Walk(b, pos + 1 + b[pos], o + b[pos] + 1);
    if r.Some? {
      assert written + (piece + r.value) == (written + piece) + r.value;
    }
  }

  /** The C string of a buffer with a terminator at `n` is the C string of what precedes it. */
  lemma {:induction false} CStringCutsAtTerminator(s: string, n: nat)
    requires n < |s| && s[n] == '\0'
    ensures CString(s) == CString(s[..n])
  {
    if n > 0 && s[0] != '\0' {
      CStringCutsAtTerminator(s[1..], n - 1);
      assert s[1..][..n - 1] == s[..n][1..];
    }
  }
}
