/** IPv4 addresses as text: what `inet_ntop` prints, and the textual private-range test. */
module DottedQuads {
  import opened Machine
  import opened Decimals

  datatype Ipv4 = Ipv4(a: u8, b: u8, c: u8, d: u8)

  function QuadText(ip: Ipv4): string {
    Decimal(ip.a) + "." + Decimal(ip.b) + "." + Decimal(ip.c) + "." + Decimal(ip.d)
  }

  predicate StartsWith(s: string, prefix: string) {
    prefix <= s
  }

  predicate IsSpace(c: char) {
    c == ' ' || ('\t' <= c <= '\r')
  }

  /** `atoi`: leading blanks, an optional sign, then digits. */
  function Atoi(s: string): int {
    if |s| > 0 && IsSpace(s[0]) then Atoi(s[1..])
    else if |s| > 0 && s[0] == '-' then -(ScanNumber(s[1..], 0).0 as int)
    else if |s| > 0 && s[0] == '+' then ScanNumber(s[1..], 0).0
    else ScanNumber(s, 0).0
  }

  predicate IsPrivateIp(ip: string) {
    StartsWith(ip, "192.168.") ||
    StartsWith(ip, "10.") ||
    (StartsWith(ip, "172.") && 16 <= Atoi(ip[4..]) <= 31)
  }

  /** 10/8, 172.16/12 and 192.168/16. */
  predicate Rfc1918(ip: Ipv4) {
    ip.a == 10 || (ip.a == 172 && 16 <= ip.b <= 31) || (ip.a == 192 && ip.b == 168)
  }

  // ----- Printing is injective and short -----

  function Tail3(ip: Ipv4): string { "." + Decimal(ip.d) }
  function Tail2(ip: Ipv4): string { "." + Decimal(ip.c) + Tail3(ip) }
  function Tail1(ip: Ipv4): string { "." + Decimal(ip.b) + Tail2(ip) }

  lemma QuadParts(ip: Ipv4)
    ensures QuadText(ip) == Decimal(ip.a) + Tail1(ip)
    ensures ScanNumber(QuadText(ip), 0) == (ip.a, Tail1(ip))
    ensures Tail1(ip)[1..] == Decimal(ip.b) + Tail2(ip)
    ensures ScanNumber(Tail1(ip)[1..], 0) == (ip.b, Tail2(ip))
    ensures ScanNumber(Tail2(ip)[1..], 0) == (ip.c, Tail3(ip))
    ensures ScanNumber(Tail3(ip)[1..], 0) == (ip.d, "")
  {
    assert QuadText(ip) == Decimal(ip.a) + Tail1(ip);
    ScanDecimal(ip.a, Tail1(ip));
    OctetAfterDot(ip.b, Tail2(ip));
    OctetAfterDot(ip.c, Tail3(ip));
    OctetAfterDot(ip.d, "");
    assert Tail3(ip) == "." + Decimal(ip.d) + "";
  }

  lemma OctetAfterDot(n: nat, rest: string)
    requires NoDigitNext(rest)
    ensures var s := "." + Decimal(n) + rest;
      s[1..] == Decimal(n) + rest && ScanNumber(s[1..], 0) == (n, rest)
  {
    var s := "." + Decimal(n) + rest;
    assert s[1..] == Decimal(n) + rest;
    ScanDecimal(n, rest);
  }

  /** Reads an octet off the front; unless it is the last one, a dot must follow and is skipped. */
  function ReadOctet(s: string, last: bool): Option<(u8, string)> {
    var n := ScanNumber(s, 0);
    if n.0 > 255 then None
    else if last then (if n.1 == "" then Some((n.0, "")) else None)
    else if |n.1| > 0 && n.1[0] == '.' then Some((n.0, n.1[1..]))
    else None
  }

  function ReadQuad(s: string): Option<Ipv4> {
    var a :- ReadOctet(s, false);
    var b :- ReadOctet(a.1, false);
    var c :- ReadOctet(b.1, false);
    var d :- ReadOctet(c.1, true);
    Some(Ipv4(a.0, b.0, c.0, d.0))
  }

  /** The text of an address reads back as its four octets, in order. */
  lemma QuadTextReadsBack(ip: Ipv4)
    ensures ReadQuad(QuadText(ip)) == Some(ip)
  {
    QuadParts(ip);
  }

  /** Two addresses with the same text are the same address. */
  lemma QuadTextInjective(x: Ipv4, y: Ipv4)
    requires QuadText(x) == QuadText(y)
    ensures x == y
  {
    QuadTextReadsBack(x);
    QuadTextReadsBack(y);
  }

  lemma QuadTextFits(ip: Ipv4)
    ensures 7 <= |QuadText(ip)| <= 15
  {
    assert Pow10(3) == 1000;
    DecimalLength(ip.a, 3);
    DecimalLength(ip.b, 3);
    DecimalLength(ip.c, 3);
    DecimalLength(ip.d, 3);
  }

  lemma QuadTextPlain(ip: Ipv4)
    ensures forall i :: 0 <= i < |QuadText(ip)| ==> IsDigit(QuadText(ip)[i]) || QuadText(ip)[i] == '.'
  {
    DecimalDigits(ip.a);
    DecimalDigits(ip.b);
    DecimalDigits(ip.c);
    DecimalDigits(ip.d);
  }

  // ----- The textual test is the address-range test -----

  /** A text starting with a number and a dot scans as that number. */
  lemma ScanPrefix(n: nat, s: string)
    requires StartsWith(s, Decimal(n) + ".")
    ensures ScanNumber(s, 0) == (n, s[|Decimal(n)|..])
  {
    var rest := s[|Decimal(n)|..];
    assert rest[0] == '.';
    assert s == Decimal(n) + rest;
    ScanDecimal(n, rest);
  }

  /** An octet's text and a dot begin `s` exactly when the octet is that number. */
  lemma OctetPrefix(s: string, k: nat, tail: string, n: nat)
    requires s == Decimal(k) + tail && |tail| > 0 && tail[0] == '.'
    ensures StartsWith(s, Decimal(n) + ".") <==> k == n
  {
    ScanDecimal(k, tail);
    if StartsWith(s, Decimal(n) + ".") {
      ScanPrefix(n, s);
    }
  }

  lemma FirstOctet(ip: Ipv4, n: nat)
    ensures StartsWith(QuadText(ip), Decimal(n) + ".") <==> ip.a == n
  {
    QuadParts(ip);
    OctetPrefix(QuadText(ip), ip.a, Tail1(ip), n);
  }

  lemma SecondOctet(ip: Ipv4, m: nat, n: nat)
    ensures StartsWith(QuadText(ip), (Decimal(m) + ".") + (Decimal(n) + ".")) <==> ip.a == m && ip.b == n
  {
    var t := Decimal(ip.b) + Tail2(ip);
    FirstOctet(ip, m);
    OctetPrefix(t, ip.b, Tail2(ip), n);
    QuadSplit(ip);
    TwoPrefixes(QuadText(ip), Decimal(ip.a) + ".", t, Decimal(m) + ".", Decimal(n) + ".");
  }

  lemma QuadSplit(ip: Ipv4)
    ensures QuadText(ip) == (Decimal(ip.a) + ".") + (Decimal(ip.b) + Tail2(ip))
  {
  }

  lemma TwoPrefixes(s: string, head: string, t: string, first: string, second: string)
    requires s == head + t
    ensures StartsWith(s, first + second) ==> StartsWith(s, first)
    ensures head == first ==> (StartsWith(s, first + second) <==> StartsWith(t, second))
  {
    if StartsWith(s, first + second) && head == first {
      assert s[|first|..] == t && (first + second)[|first|..] == second;
    }
  }

  lemma OctetTexts()
    ensures Decimal(10) == "10" && Decimal(172) == "172" && Decimal(192) == "192" && Decimal(168) == "168"
  {
  }

  /** On every printed address the textual test decides RFC 1918 membership. */
  lemma PrivateTextIsRfc1918(ip: Ipv4)
    ensures IsPrivateIp(QuadText(ip)) <==> Rfc1918(ip)
  {
    var s := QuadText(ip);
    OctetTexts();
    QuadParts(ip);
    FirstOctet(ip, 10);
    FirstOctet(ip, 172);
    SecondOctet(ip, 192, 168);
    assert "10." == Decimal(10) + "." && "172." == Decimal(172) + ".";
    assert "192.168." == (Decimal(192) + ".") + (Decimal(168) + ".");
    if ip.a == 172 {
      var rest := s[4..];
      assert s == "172" + Tail1(ip);
      assert rest == Tail1(ip)[1..];
      assert Atoi(rest) == ip.b;
    }
  }
}
