/** Forensic samples from the frame to the backend: whatever frames a run is over, the samples a flush
    submits arrive whole. */
module DeliveredSamples {
  import opened Machine
  import opened DottedQuads
  import opened PacketParser
  import opened FxRings
  import opened BackendBodies
  import opened BatchDecode
  import opened CaptureLoop
  import opened FlushContents
  import opened FlushMeaning
  import opened FilteredRuns

  /** Addresses of a parsed packet print short and plain, and its protocol is one the batch reports. */
  predicate Printable(p: FxPacket) {
    Plain(p.srcIp) && |p.srcIp| <= 15 && Plain(p.dstIp) && |p.dstIp| <= 15 && Reported(p)
  }

  lemma QuadPrintable(ip: Ipv4)
    ensures Plain(QuadText(ip)) && |QuadText(ip)| <= 15
  {
    QuadTextPlain(ip);
    QuadTextFits(ip);
  }

  lemma ParsedPrintable(b: seq<u8>, now: int)
    requires Parsed(b).Some?
    ensures Printable(FxOf(Parsed(b).value, now))
  {
    QuadPrintable(Address(b, 26));
    QuadPrintable(Address(b, 30));
  }

  lemma {:induction false} AllReported(packets: seq<FxPacket>, n: nat)
    requires n <= |packets| && forall k :: 0 <= k < |packets| ==> Reported(packets[k])
    ensures ReportedOnly(packets, n) == packets[..n]
  {
    if n > 0 {
      AllReported(packets, n - 1);
      assert packets[..n] == packets[..n - 1] + [packets[n - 1]];
    }
  }

  lemma SamplesPrintable(mode: FilterMode, h: seq<Arrival>, n: nat, ks: seq<nat>, xs: seq<Sighting>,
                         t0: int, r0: int, i: nat, k: nat)
    requires Recording(mode, h, n, ks, xs) && i < |xs| && k < |JobAt(xs, t0, r0, i).fxPackets|
    ensures Printable(JobAt(xs, t0, r0, i).fxPackets[k])
  {
    SamplesAreNewest(xs, t0, r0, i);
    assert xs[i - k] == SightingOf(h[ks[i - k]]);
    ParsedPrintable(h[ks[i - k]].frame, xs[i - k].now);
  }

  lemma BatchArrives(deviceId: string, packets: seq<FxPacket>, iso: int -> string)
    requires 0 < |deviceId| <= 63 && 0 < |packets| <= FX_SAMPLE_MAX
    requires forall t :: |iso(t)| <= 31 && Plain(iso(t))
    requires forall k :: 0 <= k < |packets| ==> Printable(packets[k])
    ensures ForensicsBody(deviceId, packets, iso).Some?
    ensures var body := ForensicsBody(deviceId, packets, iso).value;
      ReadBatch(body, ForensicsHeader(deviceId), (s: string) => ReadSample(s))
      == Some(SamplesOf(packets, iso))
  {
    AllReported(packets, |packets|);
    assert packets[..|packets|] == packets;
    ForensicsRoundTrip(deviceId, packets, iso);
  }

  /** A sample as the backend reads it is a packet of the run field by field. */
  predicate Tells(sample: Sample, x: Sighting, iso: int -> string) {
    sample.stamp == iso(x.now) && sample.src == x.packet.srcIp && sample.dst == x.packet.dstIp &&
    sample.srcPort == x.packet.srcPort && sample.dstPort == x.packet.dstPort &&
    sample.size == x.packet.packetSize % 0x1_0000_0000 &&
    (x.packet.protocol == 6 ==> sample.protocol == "TCP") && (x.packet.protocol == 17 ==> sample.protocol == "UDP")
  }

  lemma SamplesTell(packets: seq<FxPacket>, samples: seq<Sample>, xs: seq<Sighting>, i: nat, iso: int -> string)
    requires i < |xs| && |packets| <= i + 1 && samples == SamplesOf(packets, iso)
    requires forall k :: 0 <= k < |packets| ==> k <= i && IsSampleOf(packets[k], xs[i - k])
    ensures |samples| == |packets| && forall k :: 0 <= k < |samples| ==> Tells(samples[k], xs[i - k], iso)
  {
  }

  /** The body is sent, its list reads back as these samples, and all of it if the device id is plain. */
  ghost predicate Arrives(deviceId: string, body: Option<string>, samples: seq<Sample>) {
    body.Some? &&
    ReadBatch(body.value, ForensicsHeader(deviceId), (s: string) => ReadSample(s)) == Some(samples) &&
    (Plain(deviceId) ==> ReadSampleBody(body.value) == Some(SampleBatch(deviceId, samples)))
  }

  lemma PrintableArrive(deviceId: string, packets: seq<FxPacket>, iso: int -> string)
    requires 0 < |deviceId| <= 63 && 0 < |packets| <= FX_SAMPLE_MAX
    requires forall t :: |iso(t)| <= 31 && Plain(iso(t))
    requires forall k :: 0 <= k < |packets| ==> Printable(packets[k])
    ensures Arrives(deviceId, ForensicsBody(deviceId, packets, iso), SamplesOf(packets, iso))
  {
    BatchArrives(deviceId, packets, iso);
    if Plain(deviceId) {
      SampleBodyWhole(deviceId, ForensicsBody(deviceId, packets, iso).value, SamplesOf(packets, iso));
    }
  }

  /** Every sample a flush submits, in any run over any frames, reaches the backend: the newest packets, at
      most 32, newest first and field by field. */
  lemma SamplesDelivered(deviceId: string, iso: int -> string, mode: FilterMode,
                         h: seq<Arrival>, n: nat, ks: seq<nat>, xs: seq<Sighting>, t0: int, r0: int, i: nat)
      returns (samples: seq<Sample>)
    requires 0 < |deviceId| <= 63 && forall t :: |iso(t)| <= 31 && Plain(iso(t))
    requires Recording(mode, h, n, ks, xs) && i < |xs| && |JobAt(xs, t0, r0, i).alerts| > 0
    ensures |samples| == Min(32, i + 1) && forall k :: 0 <= k < |samples| ==> Tells(samples[k], xs[i - k], iso)
    ensures Arrives(deviceId, ForensicsBody(deviceId, JobAt(xs, t0, r0, i).fxPackets, iso), samples)
  {
    var packets := JobAt(xs, t0, r0, i).fxPackets;
    SamplesAreNewest(xs, t0, r0, i);
    forall k | 0 <= k < |packets| ensures Printable(packets[k]) {
      SamplesPrintable(mode, h, n, ks, xs, t0, r0, i, k);
    }
    PrintableArrive(deviceId, packets, iso);
    samples := SamplesOf(packets, iso);
    SamplesTell(packets, samples, xs, i, iso);
  }
}
