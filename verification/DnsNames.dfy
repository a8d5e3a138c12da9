/** DNS names in wire form (section 3.1 of RFC 1035): the parser's label walk, an independent
    encoder, and the proof that the walk accepts exactly the encodings. */
module DnsNames {
  import opened Machine

  const QNAME_SIZE: nat := 256
  const MAX_LABEL: nat := 63

  function Chars(b: seq<u8>): (s: string)
    ensures |s| == |b|
    ensures forall i :: 0 <= i < |b| ==> s[i] == b[i] as char
  {
    seq(|b|, i requires 0 <= i < |b| => b[i] as char)
  }

  /** The parser's loop from position `pos` with `o` output bytes used: every label followed by a
      dot, or `None` when the name is rejected. */
  function Walk(b: seq<u8>, pos: nat, o: nat): (r: Option<string>)
    decreases |b| - pos
  {
    if pos >= |b| then None
    else if b[pos] == 0 then Some("")
    else if b[pos] > MAX_LABEL then None
    else if pos + 1 + b[pos] > |b| then None
    else if o + b[pos] + 1 > QNAME_SIZE - 1 then None
    else Prepend(Chars(b[pos + 1..pos + 1 + b[pos]]) + ".", Walk(b, pos + 1 + b[pos], o + b[pos] + 1))
  }

  function Prepend(s: string, r: Option<string>): Option<string> {
    match r
    case None => None
    case Some(t) => Some(s + t)
  }

  // ----- The encoder -----

  type Labels = seq<seq<u8>>

  /** Wire form of the labels from index `k` on, with the terminating root label. */
  function EncodeFrom(labels: Labels, k: nat): seq<u8>
    requires k <= |labels| && LabelsFit(labels)
    decreases |labels| - k
  {
    if k == |labels| then [0] else [|labels[k]|] + labels[k] + EncodeFrom(labels, k + 1)
  }

  /** Octets of the labels with their length bytes, without the root label. */
  function WireLength(labels: Labels, k: nat): nat
    requires k <= |labels|
    decreases |labels| - k
  {
    if k == |labels| then 0 else |labels[k]| + 1 + WireLength(labels, k + 1)
  }

  /** Every label followed by a dot. */
  function Dotted(labels: Labels, k: nat): (s: string)
    requires k <= |labels|
    ensures |s| == WireLength(labels, k)
    decreases |labels| - k
  {
    if k == |labels| then "" else Chars(labels[k]) + "." + Dotted(labels, k + 1)
  }

  predicate LabelsFit(labels: Labels) {
    forall i :: 0 <= i < |labels| ==> 1 <= |labels[i]| <= MAX_LABEL
  }

  /** The names the parser reports: non-root, labels of 1 to 63 octets, at most 255 octets without
      the root label. Section 2.3.4 of RFC 1035 allows at most 254, so every legal non-root name
      is among them. */
  predicate Reportable(labels: Labels) {
    |labels| > 0 && LabelsFit(labels) && WireLength(labels, 0) <= QNAME_SIZE - 1
  }

  /** The name as text: labels separated by dots. */
  function Joined(labels: Labels): string
    requires |labels| > 0
  {
    var s := Dotted(labels, 0);
    s[..|s| - 1]
  }

  /** `code` stands in `b` at `pos`. */
  predicate At(b: seq<u8>, pos: nat, code: seq<u8>) {
    pos + |code| <= |b| && b[pos..pos + |code|] == code
  }

  lemma AtParts(b: seq<u8>, pos: nat, len: u8, text: seq<u8>, rest: seq<u8>)
    requires |text| == len
    ensures At(b, pos, [len] + text + rest) <==>
      pos < |b| && b[pos] == len && At(b, pos + 1, text) && At(b, pos + 1 + len, rest)
  {
    var code := [len] + text + rest;
    if At(b, pos, code) {
      var s := b[pos..pos + |code|];
      assert s[0] == len && s[1..1 + len] == text && s[1 + len..|s|] == rest;
      SliceOfSlice(b, pos, pos + |code|, 1, 1 + len);
      SliceOfSlice(b, pos, pos + |code|, 1 + len, |code|);
    }
    if pos < |b| && b[pos] == len && At(b, pos + 1, text) && At(b, pos + 1 + len, rest) {
      assert b[pos..pos + |code|] == [b[pos]] + b[pos + 1..pos + 1 + len] + b[pos + 1 + len..pos + |code|];
    }
  }

  // ----- The walk accepts exactly the encodings -----

  /** One label that fits is walked over. */
  lemma WalkLabel(b: seq<u8>, pos: nat, o: nat, l: seq<u8>)
    requires 1 <= |l| <= MAX_LABEL && pos < |b| && b[pos] == |l| && At(b, pos + 1, l)
    requires o + |l| + 1 <= QNAME_SIZE - 1
    ensures Walk(b, pos, o) == Prepend(Chars(l) + ".", Walk(b, pos + 1 + |l|, o + |l| + 1))
  {
  }

  lemma {:induction false} WalkReadsEncoding(b: seq<u8>, pos: nat, o: nat, labels: Labels, k: nat)
    requires k <= |labels| && LabelsFit(labels)
    requires At(b, pos, EncodeFrom(labels, k)) && o + WireLength(labels, k) <= QNAME_SIZE - 1
    ensures Walk(b, pos, o) == Some(Dotted(labels, k))
    decreases |labels| - k
  {
    if k == |labels| {
      assert b[pos..pos + 1][0] == 0;
    } else {
      var l := labels[k];
      AtParts(b, pos, |l|, l, EncodeFrom(labels, k + 1));
      WalkLabel(b, pos, o, l);
      WalkReadsEncoding(b, pos + 1 + |l|, o + |l| + 1, labels, k + 1);
    }
  }

  /** What an accepted walk reads first. */
  lemma WalkSplit(b: seq<u8>, pos: nat, o: nat)
    requires Walk(b, pos, o).Some?
    ensures pos < |b| && b[pos] <= MAX_LABEL
    ensures b[pos] == 0 ==> Walk(b, pos, o) == Some("")
    ensures b[pos] > 0 ==>
      pos + 1 + b[pos] <= |b| && o + b[pos] + 1 <= QNAME_SIZE - 1 && Walk(b, pos + 1 + b[pos], o + b[pos] + 1).Some? &&
      Walk(b, pos, o).value
      == Chars(b[pos + 1..pos + 1 + b[pos]]) + "." + Walk(b, pos + 1 + b[pos], o + b[pos] + 1).value
  {
  }

  /** From index `k` on the labels stand encoded in `b` at `pos`, and their dotted text is `text`. */
  predicate Spells(b: seq<u8>, pos: nat, labels: Labels, k: nat, text: string) {
    k <= |labels| && LabelsFit(labels) && At(b, pos, EncodeFrom(labels, k)) && text == Dotted(labels, k)
  }

  lemma SpellOneMore(b: seq<u8>, pos: nat, labels: Labels, k: nat, text: string)
    requires k < |labels| && pos < |b| && b[pos] == |labels[k]| && At(b, pos + 1, labels[k])
    requires Spells(b, pos + 1 + |labels[k]|, labels, k + 1, text)
    ensures Spells(b, pos, labels, k, Chars(labels[k]) + "." + text)
  {
    AtParts(b, pos, |labels[k]|, labels[k], EncodeFrom(labels, k + 1));
  }

  /** Whatever is accepted continues any labels read so far. */
  lemma {:induction false} WalkContinues(b: seq<u8>, pos: nat, o: nat, before: Labels) returns (labels: Labels)
    requires Walk(b, pos, o).Some? && LabelsFit(before)
    ensures before <= labels && Spells(b, pos, labels, |before|, Walk(b, pos, o).value)
    ensures o + WireLength(labels, |before|) <= Max(o, QNAME_SIZE - 1)
    decreases |b| - pos
  {
    WalkSplit(b, pos, o);
    if b[pos] == 0 {
      labels := before;
      assert b[pos..pos + 1] == [0];
    } else {
      var n := b[pos];
      var l := b[pos + 1..pos + 1 + n];
      labels := WalkContinues(b, pos + 1 + n, o + n + 1, before + [l]);
      assert labels[|before|] == l && |before + [l]| == |before| + 1;
      SpellOneMore(b, pos, labels, |before|, Walk(b, pos + 1 + n, o + n + 1).value);
    }
  }

  lemma WalkFindsEncoding(b: seq<u8>, pos: nat, o: nat) returns (labels: Labels)
    requires Walk(b, pos, o).Some?
    ensures Spells(b, pos, labels, 0, Walk(b, pos, o).value)
    ensures o + WireLength(labels, 0) <= Max(o, QNAME_SIZE - 1)
  {
    labels := WalkContinues(b, pos, o, []);
  }

  // ----- Reading the text back -----

  /** No dot and no terminator inside any label. */
  predicate PlainLabels(labels: Labels) {
    forall i, j :: 0 <= i < |labels| && 0 <= j < |labels[i]| ==>
      labels[i][j] != '.' as int && labels[i][j] != 0
  }

  lemma CharsInjective(a: seq<u8>, b: seq<u8>)
    requires Chars(a) == Chars(b)
    ensures a == b
  {
    forall i | 0 <= i < |a| ensures a[i] == b[i] {
      assert Chars(a)[i] == Chars(b)[i];
    }
  }

  /** A dot-free text before the first dot is determined. */
  lemma FirstDot(x: string, r: string, y: string, s: string)
    requires x + "." + r == y + "." + s
    requires forall i :: 0 <= i < |x| ==> x[i] != '.'
    requires forall i :: 0 <= i < |y| ==> y[i] != '.'
    ensures x == y && r == s
  {
    var t, u := x + "." + r, y + "." + s;
    assert t[|x|] == '.' && u[|y|] == '.';
    assert forall i :: 0 <= i < |x| ==> t[i] == x[i];
    assert forall i :: 0 <= i < |y| ==> u[i] == y[i];
    assert |x| == |y|;
    assert x == t[..|x|] && y == u[..|y|];
    assert r == t[|x| + 1..] && s == u[|y| + 1..];
  }

  lemma {:induction false} DottedInjective(a: Labels, b: Labels, k: nat)
    requires k <= |a| && k <= |b| && PlainLabels(a) && PlainLabels(b)
    requires Dotted(a, k) == Dotted(b, k)
    ensures a[k..] == b[k..]
    decreases |a| - k
  {
    if k < |a| && k < |b| {
      FirstDot(Chars(a[k]), Dotted(a, k + 1), Chars(b[k]), Dotted(b, k + 1));
      CharsInjective(a[k], b[k]);
      DottedInjective(a, b, k + 1);
      assert a[k..] == [a[k]] + a[k + 1..] && b[k..] == [b[k]] + b[k + 1..];
    }
  }

  lemma {:induction false} DottedEndsInDot(labels: Labels, k: nat)
    requires k < |labels|
    ensures var s := Dotted(labels, k); |s| > 0 && s[|s| - 1] == '.'
    decreases |labels| - k
  {
    if k + 1 < |labels| {
      DottedEndsInDot(labels, k + 1);
    }
  }

  /** The text names its labels: two reportable plain names with equal text are the same name. */
  lemma JoinedInjective(a: Labels, b: Labels)
    requires |a| > 0 && |b| > 0 && PlainLabels(a) && PlainLabels(b)
    requires Joined(a) == Joined(b)
    ensures a == b
  {
    var s, t := Dotted(a, 0), Dotted(b, 0);
    DottedEndsInDot(a, 0);
    DottedEndsInDot(b, 0);
    assert s == Joined(a) + "." && t == Joined(b) + ".";
    DottedInjective(a, b, 0);
    assert a[0..] == a && b[0..] == b;
  }

  predicate NoZeroOctet(labels: Labels, k: nat) {
    forall i :: k <= i < |labels| ==> 0 !in labels[i]
  }

  lemma CharsIsCString(l: seq<u8>)
    ensures IsCString(Chars(l)) <==> 0 !in l
  {
    if 0 in l {
      var i :| 0 <= i < |l| && l[i] == 0;
      assert Chars(l)[i] == '\0';
    }
    if '\0' in Chars(l) {
      var i :| 0 <= i < |l| && Chars(l)[i] == '\0';
      assert l[i] == 0;
    }
  }

  lemma {:induction false} DottedIsCString(labels: Labels, k: nat)
    requires k <= |labels|
    ensures IsCString(Dotted(labels, k)) <==> NoZeroOctet(labels, k)
    decreases |labels| - k
  {
    if k < |labels| {
      DottedIsCString(labels, k + 1);
      CharsIsCString(labels[k]);
      assert NoZeroOctet(labels, k) <==> 0 !in labels[k] && NoZeroOctet(labels, k + 1);
    }
  }

  /** The text of a name is a C string exactly when no label holds a zero octet. */
  lemma JoinedIsCString(labels: Labels)
    requires |labels| > 0
    ensures IsCString(Joined(labels)) <==> NoZeroOctet(labels, 0)
  {
    DottedIsCString(labels, 0);
    DottedEndsInDot(labels, 0);
    assert Dotted(labels, 0) == Joined(labels) + ".";
  }
}
