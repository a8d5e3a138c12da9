/** The protocol filter: which frames a run over any frames records, and that the tables hold those
    and nothing else. */
module FilteredRuns {
  import opened Machine
  import opened TrafficStats
  import opened PacketWindows
  import opened FxRings
  import opened PacketParser
  import opened FrameCodec
  import opened CaptureLoop
  import opened CaptureRuns
  import opened FlushContents
  import opened FlushMeaning

  /** A frame the agent is to record: it parses, and its protocol octet is 6 (TCP) or 17 (UDP) if the
      agent was started for that protocol only. */
  predicate Wanted(mode: FilterMode, frame: seq<u8>) {
    Parsed(frame).Some? && |frame| >= 38 &&
    match mode
    case FilterBoth => true
    case FilterTcp => frame[23] == 6
    case FilterUdp => frame[23] == 17
  }

  /** What an arrival whose frame parses amounts to. */
  function SightingOf(a: Arrival): Sighting
    requires Parsed(a.frame).Some?
  {
    Sighting(Parsed(a.frame).value, a.now, a.thresholds, a.leases)
  }

  lemma AcceptedIff(mode: FilterMode, a: Arrival)
    ensures Accept(mode, a).Some? <==> Wanted(mode, a.frame)
    ensures Wanted(mode, a.frame) ==> Accept(mode, a) == Some(SightingOf(a))
  {
    if Parsed(a.frame).Some? {
      var t := ParsedOctets(a.frame);
    }
  }

  /** `ks` are the indices of the wanted arrivals among the first `n`, in order, and `xs` what they
      amount to. */
  ghost predicate Recording(mode: FilterMode, h: seq<Arrival>, n: nat, ks: seq<nat>, xs: seq<Sighting>) {
    n <= |h| && |xs| == |ks| &&
    (forall i, j :: 0 <= i < j < |ks| ==> ks[i] < ks[j]) &&
    (forall j :: 0 <= j < |ks| ==> ks[j] < n && Wanted(mode, h[ks[j]].frame) && xs[j] == SightingOf(h[ks[j]])) &&
    (forall k: nat :: k < n && Wanted(mode, h[k].frame) ==> k in ks)
  }

  lemma PickedIsRecording(mode: FilterMode, h: seq<Arrival>, n: nat, ks: seq<nat>, xs: seq<Sighting>)
    requires Picked((a: Arrival) => Accept(mode, a), h, n, ks, xs)
    ensures Recording(mode, h, n, ks, xs)
  {
    forall j | 0 <= j < |ks| ensures Wanted(mode, h[ks[j]].frame) && xs[j] == SightingOf(h[ks[j]]) {
      AcceptedIff(mode, h[ks[j]]);
    }
    forall k: nat | k < n && Wanted(mode, h[k].frame) ensures k in ks {
      AcceptedIff(mode, h[k]);
    }
  }

  /** A run over any frames is the run over the wanted ones, every one of them and no other, in order. */
  lemma RunRecords(mode: FilterMode, start: State, h: seq<Arrival>, n: nat) returns (ks: seq<nat>, xs: seq<Sighting>)
    requires n <= |h|
    ensures Recording(mode, h, n, ks, xs) && RunFrames(mode, start, h, n) == CaptureRuns.Run(start, xs, |xs|)
  {
    var accept := (a: Arrival) => Accept(mode, a);
    ks := ChosenPicked(accept, h, n);
    xs := Chosen(accept, h, n);
    PickedIsRecording(mode, h, n, ks, xs);
    FramesRunAccepted(mode, start, h, n);
  }

  // ----- What the tables hold -----

  /** The forensic ring was given every packet, field by field; the flow table those since the last
      flush; and the rolling window holds the newest ones, in order. */
  ghost predicate TablesHold(s: State, t0: int, xs: seq<Sighting>) {
    |s.fx| == |xs| && (forall j :: 0 <= j < |xs| ==> IsSampleOf(s.fx[j], xs[j])) &&
    s.flows == PacketsFrom(xs, PeriodStart(xs, t0, |xs|), |xs|) &&
    NewestRecorded(s.window, xs)
  }

  ghost predicate NewestRecorded(w: seq<PktRecord>, xs: seq<Sighting>) {
    |w| <= |xs| && forall j :: 0 <= j < |w| ==> RecordsIt(w[j], xs[|xs| - |w| + j])
  }

  predicate RecordsIt(r: PktRecord, x: Sighting) {
    r.ts == x.now && r.protocol == x.packet.protocol && r.size == x.packet.packetSize % 0x1_0000_0000
  }

  lemma WindowHolds(xs: seq<Sighting>, w: seq<PktRecord>)
    requires w == PacketWindows.Run(Records(xs), |xs|, PACKET_WINDOW_CAPACITY)
    ensures NewestRecorded(w, xs)
  {
    WindowIsSuffix(Records(xs), |xs|, PACKET_WINDOW_CAPACITY);
    SuffixRecorded(xs, w, PacketWindows.Start(Records(xs), |xs|, PACKET_WINDOW_CAPACITY));
  }

  lemma SuffixRecorded(xs: seq<Sighting>, w: seq<PktRecord>, st: nat)
    requires st <= |xs| && w == Records(xs)[st..|xs|]
    ensures NewestRecorded(w, xs)
  {
    forall j | 0 <= j < |w| ensures RecordsIt(w[j], xs[|xs| - |w| + j]) {
      assert w[j] == Records(xs)[st + j];
    }
  }

  lemma RunHoldsTables(t0: int, r0: int, xs: seq<Sighting>)
    ensures TablesHold(CaptureRuns.Run(Initial(t0, r0), xs, |xs|), t0, xs)
  {
    var s := CaptureRuns.Run(Initial(t0, r0), xs, |xs|);
    RunHolds(Initial(t0, r0), t0, xs, |xs|);
    RunHoldsRest(t0, r0, xs, |xs|);
    WindowHolds(xs, s.window);
  }

  ghost predicate OnlyProtocol(s: State, protocol: u8) {
    (forall j :: 0 <= j < |s.flows| ==> s.flows[j].protocol == protocol) &&
    (forall j :: 0 <= j < |s.window| ==> s.window[j].protocol == protocol) &&
    (forall j :: 0 <= j < |s.fx| ==> s.fx[j].protocol == protocol)
  }

  lemma AllOfProtocol(s: State, t0: int, xs: seq<Sighting>, protocol: u8)
    requires TablesHold(s, t0, xs) && forall j :: 0 <= j < |xs| ==> xs[j].packet.protocol == protocol
    ensures OnlyProtocol(s, protocol)
  {
  }

  lemma WantedProtocol(mode: FilterMode, h: seq<Arrival>, n: nat, ks: seq<nat>, xs: seq<Sighting>, protocol: u8)
    requires Recording(mode, h, n, ks, xs)
    requires (mode == FilterTcp && protocol == 6) || (mode == FilterUdp && protocol == 17)
    ensures forall j :: 0 <= j < |xs| ==> xs[j].packet.protocol == protocol
  {
    forall j | 0 <= j < |xs| ensures xs[j].packet.protocol == protocol {
      var t := ParsedOctets(h[ks[j]].frame);
    }
  }

  /** Over any frames: the tables hold every wanted frame's packet and no other; started for one protocol
      the agent records nothing else. */
  lemma FilteredRun(mode: FilterMode, t0: int, r0: int, h: seq<Arrival>, n: nat)
      returns (ks: seq<nat>, xs: seq<Sighting>)
    requires n <= |h|
    ensures Recording(mode, h, n, ks, xs)
    ensures var s := RunFrames(mode, Initial(t0, r0), h, n);
      TablesHold(s, t0, xs) &&
      (mode == FilterTcp ==> OnlyProtocol(s, 6)) && (mode == FilterUdp ==> OnlyProtocol(s, 17))
  {
    ks, xs := RunRecords(mode, Initial(t0, r0), h, n);
    RunHoldsTables(t0, r0, xs);
    if mode != FilterBoth {
      var protocol: u8 := if mode == FilterTcp then 6 else 17;
      WantedProtocol(mode, h, n, ks, xs, protocol);
      AllOfProtocol(RunFrames(mode, Initial(t0, r0), h, n), t0, xs, protocol);
    }
  }
}
