/** Bounded printing of a JSON batch: a header, comma-separated entries appended while they fit in
    front of a reserve, and a closing bracket, all in one fixed buffer. */
module BatchBody {
  import opened Machine

  const CLOSING: string := "]}"

  /** Entry `i` as printed: every entry but the first is preceded by a comma. */
  function Piece(entries: seq<string>, i: nat): string
    requires i < |entries|
  {
    (if i == 0 then "" else ",") + entries[i]
  }

  /** The first `k` entries, comma-joined. */
  function JoinFirst(entries: seq<string>, k: nat): string
    requires k <= |entries|
  {
    if k == 0 then "" else JoinFirst(entries, k - 1) + Piece(entries, k - 1)
  }

  /** The next entry is printed: it starts in front of the reserve and is not truncated. */
  predicate Fits(pos: nat, n: nat, reserve: nat, size: nat) {
    pos + reserve < size && n < size - pos
  }

  /** How many entries the loop prints, from entry `i` at position `pos`. */
  function Fit(entries: seq<string>, i: nat, pos: nat, reserve: nat, size: nat): (k: nat)
    requires i <= |entries|
    ensures i <= k <= |entries|
    decreases |entries| - i
  {
    if i < |entries| && Fits(pos, |Piece(entries, i)|, reserve, size)
    then Fit(entries, i + 1, pos + |Piece(entries, i)|, reserve, size)
    else i
  }

  function Printed(header: string, entries: seq<string>, reserve: nat, size: nat): (k: nat)
    ensures k <= |entries|
  {
    Fit(entries, 0, |header|, reserve, size)
  }

  function BodyOf(header: string, entries: seq<string>, k: nat): string
    requires k <= |entries|
  {
    header + JoinFirst(entries, k) + CLOSING
  }

  /** The body handed to the sender, or `None` when the batch is not sent. */
  function BatchText(header: string, entries: seq<string>, reserve: nat, size: nat, needOne: bool): Option<string> {
    var k := Printed(header, entries, reserve, size);
    if |header| >= size || (needOne && k == 0) || |header| + |JoinFirst(entries, k)| + |CLOSING| >= size
    then None
    else Some(BodyOf(header, entries, k))
  }

  // ----- The buffer code -----

  /** `snprintf(body + pos, sizeof body - pos, "%s", text)`: writes what fits and a terminator,
      returns the untruncated length, leaves everything before `pos` alone. */
  method PrintAt(body: array<char>, pos: nat, text: string) returns (n: nat)
    requires pos < body.Length
    modifies body
    ensures n == |text|
    ensures body[..pos] == old(body[..pos])
    ensures var w := Min(n, body.Length - pos - 1);
      body[pos..pos + w] == text[..w] && body[pos + w] == '\0'
  {
    n := |text|;
    var w := Min(n, body.Length - pos - 1);
    for j := 0 to w
      invariant body[..pos] == old(body[..pos])
      invariant body[pos..pos + j] == text[..j]
    {
      body[pos + j] := text[j];
      assert body[pos..pos + j + 1] == body[pos..pos + j] + [body[pos + j]];
    }
    body[pos + w] := '\0';
  }

  /** Appends `text` if it fits in front of the terminator; otherwise a truncated piece is left past
      `pos`. Either way what stands before `pos` is untouched. */
  method AppendText(body: array<char>, pos: nat, text: string) returns (n: nat)
    requires pos < body.Length
    modifies body
    ensures n == |text| && body[..pos] == old(body[..pos])
    ensures n < body.Length - pos ==> body[..pos + n] == old(body[..pos]) + text
  {
    n := PrintAt(body, pos, text);
    if n < body.Length - pos {
      assert text[..n] == text;
      assert body[..pos + n] == body[..pos] + body[pos..pos + n];
    }
  }

  /** The entry loop. A rejected entry may leave a truncated piece past the returned position. */
  method AppendEntries(body: array<char>, header: string, entries: seq<string>, reserve: nat)
    returns (pos: nat, written: nat)
    requires |header| < body.Length && body[..|header|] == header
    modifies body
    ensures written == Printed(header, entries, reserve, body.Length)
    ensures pos == |header| + |JoinFirst(entries, written)| && pos < body.Length
    ensures body[..pos] == header + JoinFirst(entries, written)
  {
    var size := body.Length;
    pos, written := |header|, 0;
    assert header + "" == header;
    while written < |entries|
      invariant pos < size && AppendState(body[..pos], header, entries, written, reserve, size)
    {
      if pos + reserve >= size {
        break;
      }
      var piece := Piece(entries, written);
      ghost var before := body[..pos];
      var n := AppendText(body, pos, piece);
      if n >= size - pos {
        break;
      }
      AppendStep(before, header, entries, written, reserve, size);
      pos := pos + n;
      written := written + 1;
    }
  }

  /** The buffer holds the header and the first `k` pieces, and the loop will stop where `Printed`
      says. */
  ghost predicate AppendState(text: string, header: string, entries: seq<string>, k: nat, reserve: nat, size: nat) {
    k <= |entries| && text == header + JoinFirst(entries, k) &&
    Fit(entries, k, |text|, reserve, size) == Printed(header, entries, reserve, size)
  }

  lemma AppendStep(text: string, header: string, entries: seq<string>, k: nat, reserve: nat, size: nat)
    requires k < |entries| && AppendState(text, header, entries, k, reserve, size)
    requires Fits(|text|, |Piece(entries, k)|, reserve, size)
    ensures AppendState(text + Piece(entries, k), header, entries, k + 1, reserve, size)
  {
    JoinStep(header, entries, k);
  }

  lemma JoinStep(header: string, entries: seq<string>, k: nat)
    requires k < |entries|
    ensures (header + JoinFirst(entries, k)) + Piece(entries, k) == header + JoinFirst(entries, k + 1)
  {
    var j, p := JoinFirst(entries, k), Piece(entries, k);
    assert (header + j) + p == header + (j + p);
  }

  method BuildBatch(header: string, entries: seq<string>, reserve: nat, size: nat, needOne: bool)
    returns (r: Option<string>)
    requires size > 0
    requires IsCString(header) && forall i :: 0 <= i < |entries| ==> IsCString(entries[i])
    ensures r == BatchText(header, entries, reserve, size, needOne)
  {
    var body := new char[size](_ => '\0');
    var n := PrintAt(body, 0, header);
    if n >= size {
      return None;
    }
    assert body[0..n] == header;
    var pos, written := AppendEntries(body, header, entries, reserve);
    if needOne && written == 0 {
      return None;
    }
    n := PrintAt(body, pos, CLOSING);
    if n >= size - pos {
      return None;
    }
    r := Some(CString(body[..]));
    TerminatedBody(body[..], header, entries, written);
  }

  lemma FourParts<T>(s: seq<T>, n: nat, m: nat)
    requires n + m < |s|
    ensures s == s[..n] + s[n..n + m] + [s[n + m]] + s[n + m + 1..]
  {
  }

  lemma TerminatedBody(buffer: string, header: string, entries: seq<string>, k: nat)
    requires k <= |entries| && IsCString(header) && forall i :: 0 <= i < |entries| ==> IsCString(entries[i])
    requires var text := header + JoinFirst(entries, k);
      |text| + 2 < |buffer| && buffer[..|text|] == text &&
      buffer[|text|..|text| + 2] == CLOSING && buffer[|text| + 2] == '\0'
    ensures CString(buffer) == BodyOf(header, entries, k)
  {
    var text := header + JoinFirst(entries, k);
    JoinIsCString(entries, k);
    var body := BodyOf(header, entries, k);
    assert body == text + CLOSING;
    assert buffer == body + ['\0'] + buffer[|body| + 1..] by {
      FourParts(buffer, |text|, 2);
    }
    CStringOfTerminated(body, buffer[|body| + 1..]);
  }

  lemma {:induction false} JoinIsCString(entries: seq<string>, k: nat)
    requires k <= |entries| && forall i :: 0 <= i < |entries| ==> IsCString(entries[i])
    ensures IsCString(JoinFirst(entries, k))
  {
    if k > 0 {
      JoinIsCString(entries, k - 1);
    }
  }

  // ----- Reserve arithmetic -----

  lemma {:induction false} FitFrom(header: string, entries: seq<string>, i: nat, reserve: nat, size: nat)
    requires i <= Printed(header, entries, reserve, size)
    ensures Fit(entries, i, |header| + |JoinFirst(entries, i)|, reserve, size)
         == Printed(header, entries, reserve, size)
    ensures i > 0 ==> Fits(|header| + |JoinFirst(entries, i - 1)|, |Piece(entries, i - 1)|, reserve, size)
  {
    if i > 0 {
      FitFrom(header, entries, i - 1, reserve, size);
    }
  }

  /** Some entry starts in front of the reserve and ends in the last two usable bytes: a condition on
      the lengths of the entries alone. */
  predicate EndsInLastTwo(header: string, entries: seq<string>, reserve: nat, size: nat) {
    exists j :: 0 < j <= |entries| &&
      |header| + |JoinFirst(entries, j - 1)| + reserve < size &&
      size - 2 <= |header| + |JoinFirst(entries, j)| < size
  }

  lemma {:induction false} JoinGrows(entries: seq<string>, i: nat, k: nat)
    requires i <= k <= |entries|
    ensures |JoinFirst(entries, i)| <= |JoinFirst(entries, k)|
  {
    if i < k {
      JoinGrows(entries, i, k - 1);
    }
  }

  /** If entry `j` starts in front of the reserve and fits, all up to it are printed. */
  lemma {:induction false} PrintsUpTo(header: string, entries: seq<string>, i: nat, j: nat, reserve: nat, size: nat)
    requires i < j <= |entries|
    requires |header| + |JoinFirst(entries, j - 1)| + reserve < size
    requires |header| + |JoinFirst(entries, j)| < size
    ensures Fit(entries, i, |header| + |JoinFirst(entries, i)|, reserve, size) >= j
    decreases j - i
  {
    JoinGrows(entries, i, j - 1);
    JoinGrows(entries, i + 1, j);
    var pos, n := |header| + |JoinFirst(entries, i)|, |Piece(entries, i)|;
    assert |header| + |JoinFirst(entries, i + 1)| == pos + n && Fits(pos, n, reserve, size);
    if i + 1 < j {
      PrintsUpTo(header, entries, i + 1, j, reserve, size);
    }
  }

  /** A batch whose header leaves room for the closing is lost exactly then. */
  lemma LostIff(header: string, entries: seq<string>, reserve: nat, size: nat)
    requires |header| + 2 < size
    ensures BatchText(header, entries, reserve, size, false).None? <==> EndsInLastTwo(header, entries, reserve, size)
  {
    var k := Printed(header, entries, reserve, size);
    FitFrom(header, entries, k, reserve, size);
    if EndsInLastTwo(header, entries, reserve, size) {
      var j :| 0 < j <= |entries| &&
        |header| + |JoinFirst(entries, j - 1)| + reserve < size &&
        size - 2 <= |header| + |JoinFirst(entries, j)| < size;
      PrintsUpTo(header, entries, 0, j, reserve, size);
      JoinGrows(entries, j, k);
    } else if k > 0 {
      assert |JoinFirst(entries, k)| == |JoinFirst(entries, k - 1)| + |Piece(entries, k - 1)|;
    }
  }

  /** If every printed piece is at least two bytes shorter than the reserve, no entry is ever
      truncated and the closing always fits. */
  lemma ReserveSuffices(header: string, entries: seq<string>, reserve: nat, size: nat)
    requires |header| + 2 < size
    requires forall i :: 0 <= i < |entries| ==> |Piece(entries, i)| + 2 <= reserve
    ensures BatchText(header, entries, reserve, size, false)
         == Some(BodyOf(header, entries, Printed(header, entries, reserve, size)))
    ensures var k := Printed(header, entries, reserve, size);
      k < |entries| ==> |header| + |JoinFirst(entries, k)| + reserve >= size
  {
    var k := Printed(header, entries, reserve, size);
    FitFrom(header, entries, k, reserve, size);
  }

  lemma {:induction false} JoinLength(entries: seq<string>, k: nat, bound: nat)
    requires k <= |entries| && forall i :: 0 <= i < |entries| ==> |Piece(entries, i)| <= bound
    ensures |JoinFirst(entries, k)| <= k * bound
  {
    if k > 0 {
      JoinLength(entries, k - 1, bound);
    }
  }

  /** Few and short enough entries are all printed. */
  lemma AllPrinted(header: string, entries: seq<string>, reserve: nat, size: nat, bound: nat)
    requires |header| + 2 < size && bound + 2 <= reserve
    requires forall i :: 0 <= i < |entries| ==> |Piece(entries, i)| <= bound
    requires |header| + |entries| * bound + reserve < size
    ensures BatchText(header, entries, reserve, size, false) == Some(BodyOf(header, entries, |entries|))
  {
    var k := Printed(header, entries, reserve, size);
    ReserveSuffices(header, entries, reserve, size);
    JoinLength(entries, k, bound);
    assert k * bound <= |entries| * bound;
  }
}
