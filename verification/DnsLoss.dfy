/** A DNS batch that is lost, from the frames on: sixteen queries for names made of four labels of
    quotes. The reserve of 512 bytes is one byte and a closing too small for such a name. */
module DnsLoss {
  import opened Machine
  import opened Packets
  import opened GroupBy
  import opened Decimals
  import opened DottedQuads
  import opened DnsNames
  import opened PacketParser
  import opened FrameCodec
  import opened JsonEscape
  import opened BatchBody
  import opened DnsWindows
  import opened AnomalyDetector
  import opened BackendBodies
  import opened CaptureLoop
  import opened CaptureRuns
  import opened FlushContents

  // ----- Escaped lengths -----

  function Size(s: string): nat {
    EscapedLength(s, |s|)
  }

  lemma {:induction false} SizePrefix(a: string, b: string, n: nat)
    requires n <= |a|
    ensures EscapedLength(a + b, n) == EscapedLength(a, n)
  {
    if n > 0 {
      SizePrefix(a, b, n - 1);
    }
  }

  lemma {:induction false} SizeConcatTo(a: string, b: string, n: nat)
    requires n <= |b|
    ensures EscapedLength(a + b, |a| + n) == Size(a) + EscapedLength(b, n)
  {
    if n == 0 {
      SizePrefix(a, b, |a|);
    } else {
      SizeConcatTo(a, b, n - 1);
      assert (a + b)[|a| + n - 1] == b[n - 1];
    }
  }

  lemma SizeConcat(a: string, b: string)
    ensures Size(a + b) == Size(a) + Size(b)
  {
    SizeConcatTo(a, b, |b|);
  }

  /** Text that needs no six-character escape and fits is written whole. */
  lemma WrittenWhole(s: string, size: nat)
    requires NoUnicodeEscapes(s) && Size(s) + 2 <= size
    ensures |Escaped(s, size)| == Size(s)
  {
    if |s| > 0 {
      assert Size(s) == EscapedLength(s, |s| - 1) + Width(s[|s| - 1]);
    }
    ExactLength(s, 0, size);
  }

  lemma {:induction false} PlainSize(s: string, n: nat)
    requires n <= |s| && forall k :: 0 <= k < |s| ==> IsDigit(s[k]) || s[k] == '.'
    ensures EscapedLength(s, n) == n
  {
    if n > 0 {
      PlainSize(s, n - 1);
    }
  }

  // ----- Names of a chosen escaped length -----

  const QUOTE: u8 := 34
  const LETTER: u8 := 97

  /** A label whose text escapes to `n` bytes. */
  function QuoteLabel(n: nat): (l: seq<u8>)
    ensures |l| == n / 2 + n % 2
    ensures forall k :: 0 <= k < |l| ==> l[k] == if k < n / 2 then QUOTE else LETTER
  {
    seq(n / 2 + n % 2, k => if k < n / 2 then QUOTE else LETTER)
  }

  lemma {:induction false} QuoteLabelPrefix(n: nat, k: nat)
    requires k <= |QuoteLabel(n)|
    ensures EscapedLength(Chars(QuoteLabel(n)), k) == if k <= n / 2 then 2 * k else n
  {
    if k > 0 {
      QuoteLabelPrefix(n, k - 1);
    }
  }

  /** Four labels whose joined text escapes to `n` bytes, dots included. */
  function QuoteName(n: nat): (labels: Labels)
    requires 7 <= n <= 467
    ensures |labels| == 4 && LabelsFit(labels) && NoZeroOctet(labels, 0)
  {
    var m := n - 3;
    [QuoteLabel(m / 4), QuoteLabel((m + 1) / 4), QuoteLabel((m + 2) / 4), QuoteLabel((m + 3) / 4)]
  }

  function FourLabels(a: string, b: string, c: string, d: string): string {
    a + ("." + (b + ("." + (c + ("." + d)))))
  }

  lemma JoinedFour(labels: Labels)
    requires |labels| == 4
    ensures Joined(labels) == FourLabels(Chars(labels[0]), Chars(labels[1]), Chars(labels[2]), Chars(labels[3]))
    ensures WireLength(labels, 0) == |labels[0]| + |labels[1]| + |labels[2]| + |labels[3]| + 4
  {
    var a, b, c, d := Chars(labels[0]), Chars(labels[1]), Chars(labels[2]), Chars(labels[3]);
    assert Dotted(labels, 4) == "";
    assert Dotted(labels, 3) == d + ".";
    assert Dotted(labels, 2) == c + ("." + (d + "."));
    assert Dotted(labels, 1) == b + ("." + (c + ("." + (d + "."))));
    assert Dotted(labels, 0) == FourLabels(a, b, c, d) + ".";
    assert WireLength(labels, 2) == |labels[2]| + |labels[3]| + 2;
  }

  lemma FourSize(a: string, b: string, c: string, d: string)
    ensures Size(FourLabels(a, b, c, d)) == Size(a) + Size(b) + Size(c) + Size(d) + 3
  {
    assert EscapedLength(".", 0) == 0 && Size(".") == 1;
    SizeConcat(".", d);
    SizeConcat(c, "." + d);
    SizeConcat(".", c + ("." + d));
    SizeConcat(b, "." + (c + ("." + d)));
    SizeConcat(".", b + ("." + (c + ("." + d))));
    SizeConcat(a, "." + (b + ("." + (c + ("." + d)))));
  }

  function Domain(n: nat): string
    requires 7 <= n <= 467
  {
    Joined(QuoteName(n))
  }

  lemma LabelSize(n: nat)
    ensures Size(Chars(QuoteLabel(n))) == n
  {
    QuoteLabelPrefix(n, |QuoteLabel(n)|);
  }

  lemma Quarters(m: nat)
    ensures m / 4 + (m + 1) / 4 + (m + 2) / 4 + (m + 3) / 4 == m
    ensures m <= 464 ==> (m + 3) / 4 <= 116
  {
  }

  lemma DomainText(n: nat)
    requires 7 <= n <= 467
    ensures var m := n - 3;
      Domain(n) == QuoteText(m / 4, (m + 1) / 4, (m + 2) / 4, (m + 3) / 4)
  {
    JoinedFour(QuoteName(n));
  }

  function QuoteText(a: nat, b: nat, c: nat, d: nat): string {
    FourLabels(Chars(QuoteLabel(a)), Chars(QuoteLabel(b)), Chars(QuoteLabel(c)), Chars(QuoteLabel(d)))
  }

  lemma QuoteTextSize(a: nat, b: nat, c: nat, d: nat)
    ensures Size(QuoteText(a, b, c, d)) == a + b + c + d + 3
  {
    LabelSize(a);
    LabelSize(b);
    LabelSize(c);
    LabelSize(d);
    FourSize(Chars(QuoteLabel(a)), Chars(QuoteLabel(b)), Chars(QuoteLabel(c)), Chars(QuoteLabel(d)));
  }

  lemma SameSize(s: string, t: string)
    ensures s == t ==> Size(s) == Size(t)
  {
  }

  lemma DomainSize(n: nat)
    requires 7 <= n <= 467
    ensures Size(Domain(n)) == n
  {
    var m := n - 3;
    var text := QuoteText(m / 4, (m + 1) / 4, (m + 2) / 4, (m + 3) / 4);
    DomainText(n);
    QuoteTextSize(m / 4, (m + 1) / 4, (m + 2) / 4, (m + 3) / 4);
    Quarters(m);
    SameSize(Domain(n), text);
  }

  /** The name is one the parser reports. */
  lemma DomainReportable(n: nat)
    requires 7 <= n <= 467
    ensures Reportable(QuoteName(n))
  {
    JoinedFour(QuoteName(n));
    Quarters(n - 3);
  }

  lemma QuoteCharsPlain(n: nat)
    ensures NoUnicodeEscapes(Chars(QuoteLabel(n)))
  {
  }

  lemma DomainPlain(n: nat)
    requires 7 <= n <= 467
    ensures NoUnicodeEscapes(Domain(n))
  {
    var m := n - 3;
    JoinedFour(QuoteName(n));
    QuoteCharsPlain(m / 4);
    QuoteCharsPlain((m + 1) / 4);
    QuoteCharsPlain((m + 2) / 4);
    QuoteCharsPlain((m + 3) / 4);
  }

  // ----- The queries -----

  /** Sixteen clients, 1.1.0.0 to 1.1.1.5. */
  function Client(i: nat): Ipv4
    requires i < 16
  {
    Ipv4(1, 1, i / 10, i % 10)
  }

  /** The first query brings a header of `header` bytes to byte 511; each later one takes 512. */
  function Escapes(header: nat, i: nat): (n: nat)
    requires header <= 460
    ensures 7 <= n <= 467
  {
    if i == 0 then 467 - header else 467
  }

  function Key(header: nat, i: nat): DnsKey
    requires header <= 460 && i < 16
  {
    DnsKey(QuadText(Client(i)), Domain(Escapes(header, i)))
  }

  function Keys(header: nat): (k: seq<DnsKey>)
    requires header <= 460
    ensures |k| == 16
  {
    seq(16, i requires 0 <= i < 16 => Key(header, i))
  }

  function OnceEach(keys: seq<DnsKey>): (e: seq<DnsEvent>)
    ensures |e| == |keys|
  {
    seq(|keys|, i requires 0 <= i < |keys| => DnsEvent(keys[i], 1))
  }

  lemma KeysDiffer(header: nat, i: nat, j: nat)
    requires header <= 460 && i < j < 16
    ensures Key(header, i) != Key(header, j)
  {
    if QuadText(Client(i)) == QuadText(Client(j)) {
      QuadTextInjective(Client(i), Client(j));
    }
  }

  lemma KeysAt(header: nat, i: nat)
    requires header <= 460 && i < 16
    ensures Keys(header)[i] == Key(header, i)
  {
  }

  lemma AllDiffer(header: nat)
    requires header <= 460
    ensures Distinct(Keys(header))
  {
    forall i, j | 0 <= i < j < |Keys(header)| ensures Keys(header)[i] != Keys(header)[j] {
      KeysAt(header, i);
      KeysAt(header, j);
      KeysDiffer(header, i, j);
    }
  }

  lemma OnceSnoc(before: seq<DnsKey>, key: DnsKey)
    ensures OnceEach(before + [key]) == OnceEach(before) + [DnsEvent(key, 1)]
  {
  }

  /** A key not asked for before is counted once. */
  lemma CountedOneMore(before: seq<DnsKey>, key: DnsKey)
    requires Events(before, DNS_MAX_EVENTS) == OnceEach(before) && |before| < DNS_MAX_EVENTS && key !in before
    ensures Events(before + [key], DNS_MAX_EVENTS) == OnceEach(before + [key])
  {
    EventsSnocMiss(before, key, DNS_MAX_EVENTS);
    OnceSnoc(before, key);
  }

  /** Different queries are counted once each. */
  lemma {:induction false} CountedOnce(keys: seq<DnsKey>)
    requires |keys| <= DNS_MAX_EVENTS && Distinct(keys)
    ensures Events(keys, DNS_MAX_EVENTS) == OnceEach(keys)
    decreases |keys|
  {
    if |keys| > 0 {
      var before, key := keys[..|keys| - 1], keys[|keys| - 1];
      CountedOnce(before);
      assert keys == before + [key];
      CountedOneMore(before, key);
    }
  }

  // ----- The loss -----

  lemma ClientSize(i: nat)
    requires i < 16
    ensures |Escaped(QuadText(Client(i)), 32)| == 7
  {
    var s := QuadText(Client(i));
    assert |s| == 7;
    QuadTextPlain(Client(i));
    PlainSize(s, 7);
    WrittenWhole(s, 32);
  }

  lemma EntrySize(header: nat, i: nat)
    requires header <= 460 && i < 16
    ensures |DnsText(DnsEvent(Key(header, i), 1))| == 44 + Escapes(header, i)
  {
    var n := Escapes(header, i);
    ClientSize(i);
    DomainSize(n);
    DomainPlain(n);
    WrittenWhole(Domain(n), 512);
    assert Decimal(1) == ['1'];
  }

  lemma PieceSize(events: seq<DnsEvent>, i: nat)
    requires i < |events|
    ensures |Piece(DnsTexts(events), i)| == |DnsText(events[i])| + (if i == 0 then 0 else 1)
  {
  }

  lemma EntryPiece(header: nat, i: nat)
    requires header <= 460 && i < 16
    ensures |Piece(DnsTexts(OnceEach(Keys(header))), i)| == if i == 0 then 511 - header else 512
  {
    EntrySize(header, i);
    PieceSize(OnceEach(Keys(header)), i);
    assert OnceEach(Keys(header))[i] == DnsEvent(Key(header, i), 1);
  }

  lemma {:induction false} JoinedSize(header: nat, entries: seq<string>, k: nat)
    requires |entries| == 16 && 1 <= k <= 16
    requires header + |Piece(entries, 0)| == 511
    requires forall j :: 1 <= j < 16 ==> |Piece(entries, j)| == 512
    ensures header + |JoinFirst(entries, k)| == 511 + 512 * (k - 1)
  {
    if k > 1 {
      JoinedSize(header, entries, k - 1);
    }
  }

  lemma SixteenTooLate(header: string, entries: seq<string>)
    requires |entries| == 16 && |header| + |Piece(entries, 0)| == 511
    requires forall j :: 1 <= j < 16 ==> |Piece(entries, j)| == 512
    ensures EndsTooLate(header, entries)
  {
    JoinedSize(|header|, entries, 15);
    JoinedSize(|header|, entries, 16);
    assert |header| + |JoinFirst(entries, 16 - 1)| < 7680;
  }

  lemma BatchLost(deviceId: string, windowSeconds: int, timestamp: string)
    requires 0 < |deviceId| <= 63 && |timestamp| <= 31 && -(TWO32 as int) < windowSeconds < TWO32
    ensures var header := DnsHeader(deviceId, timestamp, windowSeconds);
      |header| <= 460 && DnsBody(deviceId, OnceEach(Keys(|header|)), windowSeconds, timestamp) == None
  {
    DnsHeaderLength(deviceId, timestamp, windowSeconds);
    var header := DnsHeader(deviceId, timestamp, windowSeconds);
    var events := OnceEach(Keys(|header|));
    var entries := DnsTexts(events);
    EntryPiece(|header|, 0);
    forall j | 1 <= j < 16 ensures |Piece(entries, j)| == 512 {
      EntryPiece(|header|, j);
    }
    SixteenTooLate(header, entries);
    DnsLostIff(deviceId, events, windowSeconds, timestamp);
  }

  // ----- The run -----

  /** Sixteen query frames; the last arrives five seconds after the start and triggers the flush. */
  function LosingFrames(header: nat, thresholds: ThresholdReads): (h: seq<Arrival>)
    requires header <= 460
    ensures |h| == 16
  {
    seq(16, i requires 0 <= i < 16 =>
      Arrival(Encode(QueryFrame(Client(i), QuoteName(Escapes(header, i)))), Time(i), thresholds, []))
  }

  function Time(i: nat): int {
    if i < 15 then 0 else 5
  }

  function QueryPacket(header: nat, i: nat): ParsedPacket
    requires header <= 460 && i < 16
  {
    var labels := QuoteName(Escapes(header, i));
    Record(Client(i), NAME_SERVER, PROTO_UDP, 40000, DNS_PORT,
           |Encode(QueryFrame(Client(i), labels))|, Some(Joined(labels)))
  }

  function Losing(header: nat, thresholds: ThresholdReads): (xs: seq<Sighting>)
    requires header <= 460
    ensures |xs| == 16
  {
    seq(16, i requires 0 <= i < 16 => Sighting(QueryPacket(header, i), Time(i), thresholds, []))
  }

  lemma LosingFromFrames(header: nat, thresholds: ThresholdReads)
    requires header <= 460
    ensures FromFrames(FilterBoth, LosingFrames(header, thresholds), Losing(header, thresholds))
  {
    var h, xs := LosingFrames(header, thresholds), Losing(header, thresholds);
    forall i | 0 <= i < 16 ensures Accept(FilterBoth, h[i]) == Some(xs[i]) {
      QueryAccepted(header, thresholds, i);
    }
  }

  lemma QueryAccepted(header: nat, thresholds: ThresholdReads, i: nat)
    requires header <= 460 && i < 16
    ensures var frame := Encode(QueryFrame(Client(i), QuoteName(Escapes(header, i))));
      Accept(FilterBoth, Arrival(frame, Time(i), thresholds, []))
      == Some(Sighting(QueryPacket(header, i), Time(i), thresholds, []))
  {
    QueryParsed(header, i);
  }

  lemma QueryParsed(header: nat, i: nat)
    requires header <= 460 && i < 16
    ensures Parsed(Encode(QueryFrame(Client(i), QuoteName(Escapes(header, i))))) == Some(QueryPacket(header, i))
  {
    var labels := QuoteName(Escapes(header, i));
    DomainReportable(Escapes(header, i));
    QueryFrameParses(Client(i), labels);
    JoinedIsCString(labels);
    CStringWhole(Joined(labels));
  }

  lemma {:induction false} OnePeriod(header: nat, thresholds: ThresholdReads, n: nat)
    requires header <= 460 && n <= 15
    ensures var xs := Losing(header, thresholds); WindowStart(xs, 0, n) == 0 && PeriodStart(xs, 0, n) == 0
  {
    if n > 0 {
      OnePeriod(header, thresholds, n - 1);
      assert Losing(header, thresholds)[n - 1].now == 0;
    }
  }

  lemma {:induction false} QueriesAreKeys(xs: seq<Sighting>, keys: seq<DnsKey>, n: nat)
    requires n <= |xs| == |keys| && forall i :: 0 <= i < |xs| ==> QueryOf(xs[i].packet) == [keys[i]]
    ensures QueriesFrom(xs, 0, n) == keys[..n]
  {
    if n > 0 {
      QueriesAreKeys(xs, keys, n - 1);
      assert keys[..n] == keys[..n - 1] + [keys[n - 1]];
    }
  }

  lemma PeriodKeys(header: nat, thresholds: ThresholdReads)
    requires header <= 460
    ensures QueriesFrom(Losing(header, thresholds), 0, 16) == Keys(header)
  {
    var xs, keys := Losing(header, thresholds), Keys(header);
    forall i | 0 <= i < 16 ensures QueryOf(xs[i].packet) == [keys[i]] {
      assert xs[i].packet == QueryPacket(header, i);
    }
    QueriesAreKeys(xs, keys, 16);
    assert keys[..16] == keys;
  }

  lemma LosingFlush(header: nat, thresholds: ThresholdReads)
    requires header <= 460
    ensures FlushAt(Losing(header, thresholds), 0, 15)
  {
    OnePeriod(header, thresholds, 15);
    assert Losing(header, thresholds)[15].now == 5;
  }

  lemma LosingJob(header: nat, r0: int, thresholds: ThresholdReads)
    requires header <= 460
    ensures var xs := Losing(header, thresholds);
      var job := JobAt(xs, 0, r0, 15);
      FlushAt(xs, 0, 15) && job.dnsEvents == OnceEach(Keys(header)) && job.windowSeconds == 5 && job.timestamp == 5
  {
    var xs := Losing(header, thresholds);
    OnePeriod(header, thresholds, 15);
    assert xs[15].now == 5;
    PeriodKeys(header, thresholds);
    AllDiffer(header);
    CountedOnce(Keys(header));
  }

  lemma LosingRun(header: nat, r0: int, thresholds: ThresholdReads)
    requires header <= 460
    ensures LastIs(RunFrames(FilterBoth, Initial(0, r0), LosingFrames(header, thresholds), 16).jobs,
                   JobAt(Losing(header, thresholds), 0, r0, 15))
  {
    var xs := Losing(header, thresholds);
    LosingFromFrames(header, thresholds);
    LosingFlush(header, thresholds);
    LastJob(FilterBoth, 0, r0, LosingFrames(header, thresholds), xs, 15);
  }

  /** Whatever the device id, the clock format and the thresholds: there are sixteen frames that the
      agent parses, records and flushes into a job whose DNS batch is not sent at all. */
  lemma DnsBatchCanBeLost(deviceId: string, iso: int -> string, r0: int, thresholds: ThresholdReads)
    requires 0 < |deviceId| <= 63 && |iso(5)| <= 31
    ensures var header := |DnsHeader(deviceId, iso(5), 5)|;
      header <= 460 &&
      var jobs := RunFrames(FilterBoth, Initial(0, r0), LosingFrames(header, thresholds), 16).jobs;
      |jobs| > 0 &&
      var job := jobs[|jobs| - 1];
      |job.dnsEvents| == 16 && DnsBody(deviceId, job.dnsEvents, job.windowSeconds, iso(job.timestamp)) == None
  {
    BatchLost(deviceId, 5, iso(5));
    var header := |DnsHeader(deviceId, iso(5), 5)|;
    LosingJob(header, r0, thresholds);
    LosingRun(header, r0, thresholds);
  }
}
