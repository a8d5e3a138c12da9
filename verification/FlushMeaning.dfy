/** What the job of a flush says about the packets themselves: its totals, alerts, queries, clients,
    samples and times, each stated on the packet sequence without the tables. */
module FlushMeaning {
  import opened Machine
  import opened Packets
  import opened TrafficStats
  import opened PacketWindows
  import opened GroupBy
  import opened DnsWindows
  import opened ClientActivity
  import opened FxRings
  import opened AnomalyDetector
  import opened Telemetry
  import opened CaptureLoop
  import opened CaptureRuns
  import opened AlertTheorems
  import opened FlushContents

  // ----- Traffic totals -----

  /** How many of the packets from `lo` to `hi` are of a protocol (0 stands for any). */
  function PacketsOf(xs: seq<Sighting>, lo: nat, hi: nat, protocol: u8): nat
    requires lo <= hi <= |xs|
  {
    if lo == hi then 0
    else PacketsOf(xs, lo, hi - 1, protocol) +
         (if protocol == 0 || xs[hi - 1].packet.protocol == protocol then 1 else 0)
  }

  /** The sum of their sizes, each as a 32-bit word. */
  function SizesOf(xs: seq<Sighting>, lo: nat, hi: nat, protocol: u8): nat
    requires lo <= hi <= |xs|
  {
    if lo == hi then 0
    else SizesOf(xs, lo, hi - 1, protocol) +
         (if protocol == 0 || xs[hi - 1].packet.protocol == protocol
          then xs[hi - 1].packet.packetSize % 0x1_0000_0000 else 0)
  }

  /** The six totals are those of the packets from `lo` to `hi`: 6 is TCP, 17 is UDP. */
  predicate SumsOver(t: Stats, xs: seq<Sighting>, lo: nat, hi: nat)
    requires lo <= hi <= |xs|
  {
    t.totalPackets == PacketsOf(xs, lo, hi, 0) && t.totalBytes == SizesOf(xs, lo, hi, 0) &&
    t.tcpPackets == PacketsOf(xs, lo, hi, 6) && t.tcpBytes == SizesOf(xs, lo, hi, 6) &&
    t.udpPackets == PacketsOf(xs, lo, hi, 17) && t.udpBytes == SizesOf(xs, lo, hi, 17)
  }

  lemma {:induction false} RecordSums(xs: seq<Sighting>, w: seq<PktRecord>, lo: nat, n: nat, protocol: u8)
    requires n <= |w| && lo + |w| <= |xs| && w == Records(xs)[lo..lo + |w|]
    ensures CountOf(w, n, protocol) == PacketsOf(xs, lo, lo + n, protocol)
    ensures BytesOf(w, n, protocol) == SizesOf(xs, lo, lo + n, protocol)
  {
    if n > 0 {
      RecordSums(xs, w, lo, n - 1, protocol);
      assert w[n - 1] == Records(xs)[lo + n - 1];
    }
  }

  lemma WindowSums(xs: seq<Sighting>, w: seq<PktRecord>, lo: nat, hi: nat)
    requires lo <= hi <= |xs| && w == Records(xs)[lo..hi]
    ensures SumsOver(Totals(w), xs, lo, hi)
  {
    TotalsAreSums(w);
    RecordSums(xs, w, lo, |w|, 0);
    RecordSums(xs, w, lo, |w|, 6);
    RecordSums(xs, w, lo, |w|, 17);
  }

  /** The totals of a flush are plain sums over the packets in its snapshot: with a clock that never
      runs backwards those of the last five seconds among the last 16384, and with any clock the
      packets from some `lo` on. */
  lemma TotalsTell(xs: seq<Sighting>, t0: int, r0: int, i: nat) returns (lo: nat)
    requires i < |xs|
    ensures lo <= i < lo + 16384
    ensures forall k :: 0 <= k <= i ==> (InSnapshot(xs, k, i) <==> lo <= k)
    ensures ClockForward(xs, t0) ==>
      forall k :: 0 <= k <= i ==> (lo <= k <==> xs[i].now - xs[k].now <= 5 && i - k < 16384)
    ensures SumsOver(JobAt(xs, t0, r0, i).stats, xs, lo, i + 1)
  {
    var h := Records(xs);
    lo := PacketWindows.Start(h, i + 1, PACKET_WINDOW_CAPACITY);
    WindowIsSuffix(h, i + 1, PACKET_WINDOW_CAPACITY);
    WindowSums(xs, Rolling(xs, i), lo, i + 1);
    if ClockForward(xs, t0) {
      forall k | 0 <= k <= i ensures lo <= k <==> xs[i].now - xs[k].now <= 5 && i - k < 16384 {
        SnapshotMeaning(xs, t0, k, i);
      }
    }
  }

  // ----- Alerts -----

  /** The threshold alerts of a job are exactly those its totals and the thresholds as read call for,
      each once, in order, with its own counts. */
  predicate AlertsMatch(alerts: seq<Alert>, s: Stats, r: ThresholdReads) {
    (forall kind :: kind != PortScanSuspected ==> (RaisedIn(alerts, kind) <==> Exceeded(s, r, kind))) &&
    (forall i, j :: 0 <= i < j < |alerts| ==> Turn(alerts[i].kind) < Turn(alerts[j].kind)) &&
    (forall i :: 0 <= i < |alerts| && alerts[i].kind != PortScanSuspected ==> Says(alerts[i], s))
  }

  lemma AlertsTell(xs: seq<Sighting>, t0: int, r0: int, i: nat)
    requires i < |xs|
    ensures var job := JobAt(xs, t0, r0, i);
      |job.alerts| == |job.alertFlows| && AlertsMatch(job.alerts, job.stats, xs[i].thresholds)
  {
    var job, stats := JobAt(xs, t0, r0, i), Totals(Rolling(xs, i));
    NoWrap(Rolling(xs, i));
    JobAlerts(xs, t0, r0, i);
    RaisedShape(stats, xs[i].thresholds, FlushEntries(xs, t0, i));
    ScanLast(job.alerts, Alerts(stats, xs[i].thresholds), stats, xs[i].thresholds);
  }

  lemma ScanLast(alerts: seq<Alert>, raised: seq<Alert>, s: Stats, r: ThresholdReads)
    requires Fits(s) && raised == Alerts(s, r) && |raised| <= |alerts| <= |raised| + 1
    requires forall a :: 0 <= a < |raised| ==> alerts[a] == raised[a]
    requires |alerts| > |raised| ==> alerts[|raised|].kind == PortScanSuspected
    ensures AlertsMatch(alerts, s, r)
  {
    AlertsExactly(s, r);
    forall kind | kind != PortScanSuspected ensures RaisedIn(alerts, kind) <==> Exceeded(s, r, kind) {
      assert RaisedIn(raised, kind) ==> RaisedIn(alerts, kind);
      assert RaisedIn(alerts, kind) ==> RaisedIn(raised, kind);
    }
  }

  // ----- Times and synchronisation -----

  ghost predicate Synchronises(xs: seq<Sighting>, t0: int, r0: int, i: nat)
    requires i < |xs|
  {
    FlushAt(xs, t0, i) && JobAt(xs, t0, r0, i).syncRuleset
  }

  /** `at` is when rules were last synchronised before packet `n`, at the earliest `r0`. */
  ghost predicate LastSyncIs(xs: seq<Sighting>, t0: int, r0: int, n: nat, at: int)
    requires n <= |xs|
  {
    ((forall j :: 0 <= j < n ==> !Synchronises(xs, t0, r0, j)) && at == r0) ||
    exists j :: 0 <= j < n && Synchronises(xs, t0, r0, j) && xs[j].now == at &&
      forall k :: j < k < n ==> !Synchronises(xs, t0, r0, k)
  }

  /** The last synchronisation before packet `n`, or -1. */
  lemma {:induction false} LastSyncAt(xs: seq<Sighting>, t0: int, r0: int, n: nat) returns (j: int)
    requires n <= |xs|
    ensures -1 <= j < n && LastSync(xs, t0, r0, n) == (if j == -1 then r0 else xs[j].now)
    ensures (j >= 0 ==> SyncAt(xs, t0, r0, j)) && forall k :: j < k < n ==> !SyncAt(xs, t0, r0, k)
    decreases n
  {
    j := -1;
    if n > 0 {
      if SyncAt(xs, t0, r0, n - 1) {
        j := n - 1;
      } else {
        j := LastSyncAt(xs, t0, r0, n - 1);
      }
    }
  }

  lemma LastSyncTells(xs: seq<Sighting>, t0: int, r0: int, n: nat)
    requires n <= |xs|
    ensures LastSyncIs(xs, t0, r0, n, LastSync(xs, t0, r0, n))
  {
    var j := LastSyncAt(xs, t0, r0, n);
    forall k | 0 <= k < n ensures Synchronises(xs, t0, r0, k) <==> SyncAt(xs, t0, r0, k) {
      SyncIsSynchronises(xs, t0, r0, k);
    }
  }

  lemma SyncIsSynchronises(xs: seq<Sighting>, t0: int, r0: int, i: nat)
    requires i < |xs|
    ensures SyncAt(xs, t0, r0, i) <==> Synchronises(xs, t0, r0, i)
  {
  }

  /** A job is stamped with the time of the packet that flushed, covers the seconds since the last
      flush, and synchronises the rules exactly when that was last done a minute or more ago. */
  lemma TimesTell(xs: seq<Sighting>, t0: int, r0: int, i: nat) returns (last: int)
    requires i < |xs|
    ensures LastSyncIs(xs, t0, r0, i, last)
    ensures var job, p := JobAt(xs, t0, r0, i), PeriodStart(xs, t0, i);
      job.timestamp == xs[i].now && job.windowSeconds == xs[i].now - (if p == 0 then t0 else xs[p - 1].now) &&
      (job.syncRuleset <==> xs[i].now - last >= 60)
  {
    last := LastSync(xs, t0, r0, i);
    LastSyncTells(xs, t0, r0, i);
    WindowStartIsLastFlush(xs, t0, i);
  }

  /** Two ruleset synchronisations are at least a minute apart. */
  lemma SyncsApart(xs: seq<Sighting>, t0: int, r0: int, i: nat, j: nat)
    requires i < j < |xs| && ClockForward(xs, t0) && Synchronises(xs, t0, r0, i) && Synchronises(xs, t0, r0, j)
    ensures xs[i].now + 60 <= xs[j].now
  {
    LastSyncSince(xs, t0, r0, i, j);
  }

  lemma {:induction false} LastSyncSince(xs: seq<Sighting>, t0: int, r0: int, i: nat, n: nat)
    requires i < n <= |xs| && ClockForward(xs, t0) && SyncAt(xs, t0, r0, i)
    ensures xs[i].now <= LastSync(xs, t0, r0, n)
    decreases n
  {
    if i + 1 < n {
      LastSyncSince(xs, t0, r0, i, n - 1);
    }
  }

  // ----- Clients -----

  /** Some packet up to `i` came from this address in the minute before packet `i`. */
  predicate SeenLately(xs: seq<Sighting>, i: nat, ip: string)
    requires i < |xs|
  {
    exists k :: 0 <= k <= i && xs[k].packet.srcIp == ip && xs[i].now - xs[k].now <= 60
  }

  /** 256 private addresses, all different and none of them `ip`, were seen in that minute too. */
  predicate Crowd(xs: seq<Sighting>, i: nat, ip: string, others: seq<string>)
    requires i < |xs|
  {
    |others| == 256 &&
    (forall a, b :: 0 <= a < b < |others| ==> others[a] != others[b]) &&
    forall a :: 0 <= a < |others| ==>
      others[a] != ip && DottedQuads.IsPrivateIp(others[a]) && SeenLately(xs, i, others[a])
  }

  ghost predicate CrowdedOut(xs: seq<Sighting>, i: nat, ip: string)
    requires i < |xs|
  {
    exists others :: Crowd(xs, i, ip, others)
  }

  lemma {:induction false} LastTouchIsPacket(xs: seq<Sighting>, n: nat, ip: string) returns (k: nat)
    requires n <= |xs| && LastTouch(Touches(xs), n, ip).Some?
    ensures k < n && xs[k].packet.srcIp == ip && xs[k].now == LastTouch(Touches(xs), n, ip).value
  {
    k := n - 1;
    if Touches(xs)[n - 1].ip != ip {
      k := LastTouchIsPacket(xs, n - 1, ip);
    }
  }

  lemma {:induction false} TouchedLater(xs: seq<Sighting>, t0: int, n: nat, k: nat)
    requires k < n <= |xs| && ClockForward(xs, t0)
    ensures var last := LastTouch(Touches(xs), n, xs[k].packet.srcIp); last.Some? && xs[k].now <= last.value
    decreases n
  {
    if Touches(xs)[n - 1].ip != xs[k].packet.srcIp {
      TouchedLater(xs, t0, n - 1, k);
    }
  }

  lemma TouchedLately(xs: seq<Sighting>, i: nat, ip: string)
    requires i < |xs|
    ensures var last := LastTouch(Touches(xs), i + 1, ip);
      last.Some? && xs[i].now - last.value <= 60 ==> SeenLately(xs, i, ip)
  {
    if LastTouch(Touches(xs), i + 1, ip).Some? {
      var k := LastTouchIsPacket(xs, i + 1, ip);
    }
  }

  /** A job lists the leases as they are but for the online mark. A client marked online sent a packet in
      the last minute; with a clock that never runs backwards, a private one that did and is not marked
      was crowded out by 256 other private addresses, all seen in that minute. */
  lemma RosterTells(xs: seq<Sighting>, t0: int, r0: int, i: nat, c: nat)
    requires i < |xs| && c < |xs[i].leases|
    ensures |JobAt(xs, t0, r0, i).clients| == |xs[i].leases|
    ensures var lease, client := xs[i].leases[c], JobAt(xs, t0, r0, i).clients[c];
      client == lease.(online := client.online) &&
      (client.online ==> SeenLately(xs, i, lease.ip)) &&
      (ClockForward(xs, t0) && !client.online && DottedQuads.IsPrivateIp(lease.ip) && SeenLately(xs, i, lease.ip) ==>
        CrowdedOut(xs, i, lease.ip))
  {
    var h, ip := Touches(xs), xs[i].leases[c].ip;
    var table := ClientActivity.Run(h, i + 1, CLIENT_ACTIVITY_MAX);
    if Online(table, ip, xs[i].now) {
      OnlineIsTrue(h, i + 1, CLIENT_ACTIVITY_MAX, ip, xs[i].now);
      TouchedLately(xs, i, ip);
    } else {
      WrongOffline(xs, t0, i, ip);
    }
  }

  lemma WrongOffline(xs: seq<Sighting>, t0: int, i: nat, ip: string)
    requires i < |xs| && !Online(ClientActivity.Run(Touches(xs), i + 1, CLIENT_ACTIVITY_MAX), ip, xs[i].now)
    ensures ClockForward(xs, t0) && DottedQuads.IsPrivateIp(ip) && SeenLately(xs, i, ip) ==> CrowdedOut(xs, i, ip)
  {
    SeenIsMissed(xs, t0, i, ip);
    MissedIsCrowdedOut(xs, i, ip);
  }

  lemma SeenIsMissed(xs: seq<Sighting>, t0: int, i: nat, ip: string)
    requires i < |xs| && !Online(ClientActivity.Run(Touches(xs), i + 1, CLIENT_ACTIVITY_MAX), ip, xs[i].now)
    ensures ClockForward(xs, t0) && SeenLately(xs, i, ip) ==>
      ClientActivity.ClockOrdered(Touches(xs)) && Missed(Touches(xs), i + 1, ip, xs[i].now)
  {
    if ClockForward(xs, t0) && SeenLately(xs, i, ip) {
      var k :| 0 <= k <= i && xs[k].packet.srcIp == ip && xs[i].now - xs[k].now <= 60;
      TouchedLater(xs, t0, i + 1, k);
    }
  }

  lemma MissedIsCrowdedOut(xs: seq<Sighting>, i: nat, ip: string)
    requires i < |xs|
    ensures
      (DottedQuads.IsPrivateIp(ip) && ClientActivity.ClockOrdered(Touches(xs)) &&
       Missed(Touches(xs), i + 1, ip, xs[i].now)) ==>
      CrowdedOut(xs, i, ip)
  {
    if DottedQuads.IsPrivateIp(ip) {
      var others := CrowdFound(Touches(xs), i + 1, ip, xs[i].now);
      CrowdSeen(xs, i, ip, others);
    }
  }

  ghost predicate Found(h: seq<Seen>, n: nat, ip: string, now: int, others: seq<string>)
    requires n <= |h|
  {
    |others| == 256 &&
    (forall a, b :: 0 <= a < b < |others| ==> others[a] != others[b]) &&
    forall a :: 0 <= a < |others| ==>
      others[a] != ip && DottedQuads.IsPrivateIp(others[a]) && LastTouch(h, n, others[a]).Some? &&
      now - LastTouch(h, n, others[a]).value <= 60
  }

  predicate Missed(h: seq<Seen>, n: nat, ip: string, now: int)
    requires n <= |h|
  {
    LastTouch(h, n, ip).Some? && now - LastTouch(h, n, ip).value <= 60 &&
    !Online(ClientActivity.Run(h, n, CLIENT_ACTIVITY_MAX), ip, now)
  }

  lemma CrowdFound(h: seq<Seen>, n: nat, ip: string, now: int) returns (others: seq<string>)
    requires n <= |h| && DottedQuads.IsPrivateIp(ip)
    ensures ClientActivity.ClockOrdered(h) && Missed(h, n, ip, now) ==> Found(h, n, ip, now, others)
  {
    others := [];
    if ClientActivity.ClockOrdered(h) && Missed(h, n, ip, now) {
      others := WrongOfflineMeansCrowded(h, n, CLIENT_ACTIVITY_MAX, ip, now);
    }
  }

  lemma CrowdSeen(xs: seq<Sighting>, i: nat, ip: string, others: seq<string>)
    requires i < |xs|
    ensures Found(Touches(xs), i + 1, ip, xs[i].now, others) ==> CrowdedOut(xs, i, ip)
  {
    if Found(Touches(xs), i + 1, ip, xs[i].now, others) {
      forall a | 0 <= a < |others| ensures SeenLately(xs, i, others[a]) {
        TouchedLately(xs, i, others[a]);
      }
      assert Crowd(xs, i, ip, others);
    }
  }

  // ----- Samples -----

  /** A sample is a packet field by field, its size as a 32-bit word. */
  predicate IsSampleOf(f: FxPacket, x: Sighting) {
    f.ts == x.now && f.srcIp == x.packet.srcIp && f.dstIp == x.packet.dstIp &&
    f.srcPort == x.packet.srcPort && f.dstPort == x.packet.dstPort && f.protocol == x.packet.protocol &&
    f.size == x.packet.packetSize % 0x1_0000_0000
  }

  /** A flush with an alert carries the newest packets of the run, newest first, up to 32. */
  lemma SamplesAreNewest(xs: seq<Sighting>, t0: int, r0: int, i: nat)
    requires i < |xs|
    ensures var job := JobAt(xs, t0, r0, i);
      |job.fxPackets| == (if |job.alerts| > 0 then Min(32, i + 1) else 0) &&
      forall k :: 0 <= k < |job.fxPackets| ==> k <= i && IsSampleOf(job.fxPackets[k], xs[i - k])
  {
    var job := JobAt(xs, t0, r0, i);
    SamplesOfHistory(xs, i, job.alerts, job.fxPackets);
  }

  lemma SamplesOfHistory(xs: seq<Sighting>, i: nat, alerts: seq<Alert>, samples: seq<FxPacket>)
    requires i < |xs| && samples == Samples(alerts, FxHistory(xs, i + 1))
    ensures |samples| == if |alerts| > 0 then Min(32, i + 1) else 0
    ensures forall k :: 0 <= k < |samples| ==> k <= i && IsSampleOf(samples[k], xs[i - k])
  {
    if |alerts| > 0 {
      NewestFromEnd(FxHistory(xs, i + 1), Min(FX_SAMPLE_MAX, i + 1));
    }
  }

  lemma NewestFromEnd<T>(h: seq<T>, n: nat)
    requires n <= |h|
    ensures |Newest(h, n)| == n && forall k :: 0 <= k < n ==> Newest(h, n)[k] == h[|h| - 1 - k]
  {
  }

  // ----- DNS queries -----

  predicate IsQuery(p: ParsedPacket, client: string, name: string) {
    p.isDnsQuery && p.srcIp == client && p.dnsName == name
  }

  /** How many packets from `lo` to `hi` are queries of this client for this name. */
  function Asked(xs: seq<Sighting>, lo: nat, hi: nat, client: string, name: string): nat
    requires lo <= hi <= |xs|
  {
    if lo == hi then 0
    else Asked(xs, lo, hi - 1, client, name) + (if IsQuery(xs[hi - 1].packet, client, name) then 1 else 0)
  }

  /** The pairs of a client and a name it asked for. */
  function Pairs(xs: seq<Sighting>, lo: nat, hi: nat): set<DnsKey>
    requires lo <= hi <= |xs|
  {
    set k | lo <= k < hi && xs[k].packet.isDnsQuery :: DnsKey(xs[k].packet.srcIp, xs[k].packet.dnsName)
  }

  lemma QuerySnoc(xs: seq<Sighting>, lo: nat, hi: nat, key: DnsKey)
    requires lo < hi <= |xs|
    ensures var q, q', p := QueriesFrom(xs, lo, hi - 1), QueriesFrom(xs, lo, hi), xs[hi - 1].packet;
      Hits(Queries(q'), |q'|, key) ==
        Hits(Queries(q), |q|, key) + (if IsQuery(p, key.clientIp, key.domain) then 1 else 0)
  {
    var q, p := QueriesFrom(xs, lo, hi - 1), xs[hi - 1].packet;
    if p.isDnsQuery {
      var x := DnsKey(p.srcIp, p.dnsName);
      QueriesSnoc(q, x);
      Snoc(Queries(q), Item(x, 0), key);
    } else {
      assert q + [] == q;
    }
  }

  lemma {:induction false} HitsAreAsked(xs: seq<Sighting>, lo: nat, hi: nat, key: DnsKey)
    requires lo <= hi <= |xs|
    ensures var q := QueriesFrom(xs, lo, hi); Hits(Queries(q), |q|, key) == Asked(xs, lo, hi, key.clientIp, key.domain)
  {
    if lo < hi {
      HitsAreAsked(xs, lo, hi - 1, key);
      QuerySnoc(xs, lo, hi, key);
    }
  }

  lemma {:induction false} QueriesArePairs(xs: seq<Sighting>, lo: nat, hi: nat)
    requires lo <= hi <= |xs|
    ensures var q := Queries(QueriesFrom(xs, lo, hi)); Keys(q, |q|) == Pairs(xs, lo, hi)
  {
    if lo < hi {
      QueriesArePairs(xs, lo, hi - 1);
      KeysSnoc(QueriesFrom(xs, lo, hi - 1), QueryOf(xs[hi - 1].packet));
      var p := xs[hi - 1].packet;
      assert Pairs(xs, lo, hi) ==
        Pairs(xs, lo, hi - 1) + if p.isDnsQuery then {DnsKey(p.srcIp, p.dnsName)} else {};
    }
  }

  lemma KeysSnoc(q: seq<DnsKey>, more: seq<DnsKey>)
    requires |more| <= 1
    ensures Keys(Queries(q + more), |q + more|)
         == Keys(Queries(q), |q|) + if |more| == 1 then {more[0]} else {}
  {
    var h, h' := Queries(q), Queries(q + more);
    assert forall i :: 0 <= i < |q| ==> h'[i] == h[i];
    if |more| == 1 {
      assert h'[|q|].key == more[0];
    }
  }

  /** Of a client's queries for a name, `asked` in number, the events tell the exact count as a 32-bit
      word, each pair of client and name once; with at most 64 such pairs none is missing. */
  predicate TellsQueries(events: seq<DnsEvent>, client: string, name: string, asked: nat, pairs: nat) {
    |events| == Min(64, pairs) &&
    (forall a, b :: 0 <= a < b < |events| ==> events[a].key != events[b].key) &&
    (forall a :: 0 <= a < |events| && events[a].key.clientIp == client && events[a].key.domain == name ==>
      events[a].count == asked % 0x1_0000_0000 && asked > 0) &&
    (pairs <= 64 && asked > 0 ==>
      exists a :: 0 <= a < |events| && events[a].key.clientIp == client && events[a].key.domain == name)
  }

  lemma EventsTell(q: seq<DnsKey>, key: DnsKey, asked: nat, pairs: nat)
    requires asked == Hits(Queries(q), |q|, key) && pairs == |Keys(Queries(q), |q|)|
    ensures TellsQueries(Events(q, DNS_MAX_EVENTS), key.clientIp, key.domain, asked, pairs)
  {
    TalliesOf(Queries(q), DNS_MAX_EVENTS, key);
    OverflowMeansMany(Queries(q), DNS_MAX_EVENTS);
    var s, events := Summary(Queries(q), DNS_MAX_EVENTS), Events(q, DNS_MAX_EVENTS);
    assert forall a :: 0 <= a < |s| ==> events[a].key == s[a].key && events[a].count == Wrap32(s[a].hits);
    if pairs <= 64 && asked > 0 {
      var a :| 0 <= a < |s| && s[a].key == key;
      assert events[a].key == key;
    }
  }

  /** The DNS events of a flush tell the queries since the last flush like that. */
  lemma DnsTells(xs: seq<Sighting>, t0: int, r0: int, i: nat, client: string, name: string)
    requires i < |xs|
    ensures var lo := PeriodStart(xs, t0, i);
      TellsQueries(JobAt(xs, t0, r0, i).dnsEvents, client, name,
                   Asked(xs, lo, i + 1, client, name), |Pairs(xs, lo, i + 1)|)
  {
    var key := DnsKey(client, name);
    HitsAreAsked(xs, PeriodStart(xs, t0, i), i + 1, key);
    QueriesArePairs(xs, PeriodStart(xs, t0, i), i + 1);
    EventsTell(PeriodQueries(xs, t0, i), key, Asked(xs, PeriodStart(xs, t0, i), i + 1, client, name),
               |Pairs(xs, PeriodStart(xs, t0, i), i + 1)|);
  }

  lemma TalliesOf<K>(h: seq<Item<K>>, capacity: nat, key: K)
    ensures var s := Summary(h, capacity);
      (forall a, b :: 0 <= a < b < |s| ==> s[a].key != s[b].key) &&
      (forall a :: 0 <= a < |s| && s[a].key == key ==> s[a].hits == Hits(h, |h|, key) && Hits(h, |h|, key) > 0) &&
      (!GroupBy.Overflowed(h, capacity) && Hits(h, |h|, key) > 0 ==> exists a :: 0 <= a < |s| && s[a].key == key)
  {
    var f, s := Firsts(h, |h|), Summary(h, capacity);
    FirstsDistinct(h, |h|);
    FirstsComplete(h, |h|, key);
    assert forall a :: 0 <= a < |s| ==> s[a].key == f[a];
    forall a, b | 0 <= a < b < |s| ensures s[a].key != s[b].key {
      assert f[a] != f[b];
    }
    if !GroupBy.Overflowed(h, capacity) && key in f {
      var a :| 0 <= a < |f| && f[a] == key;
      assert s[a].key == key;
    }
  }
}
