/** Replacing secrets in bytes (redaction.rs): what a whole-buffer redaction is,
    and why the incremental one writes the same bytes. */
module Redaction {
  import opened Wrappers
  import opened Graphs
  import opened ByteStrings

  /** "[REDACTED]" */
  const TOKEN: Bytes := [91, 82, 69, 68, 65, 67, 84, 69, 68, 93]

  /** Secret values are resolved nonempty, so every scan step consumes input. */
  ghost predicate Nonempty(patterns: seq<Bytes>) {
    forall p <- patterns :: p != []
  }

  ghost predicate LongestFirst(patterns: seq<Bytes>) {
    forall i, j :: 0 <= i < j < |patterns| ==> |patterns[i]| >= |patterns[j]|
  }

  ghost predicate Usable(patterns: seq<Bytes>) {
    Nonempty(patterns) && LongestFirst(patterns)
  }

  /** The first listed pattern found at the front of the input. */
  function FirstMatch(patterns: seq<Bytes>, input: Bytes): (r: Option<Bytes>)
    ensures r.Some? ==> r.value in patterns && r.value <= input
  {
    if patterns == [] then None
    else if patterns[0] <= input then Some(patterns[0])
    else FirstMatch(patterns[1..], input)
  }

  lemma {:induction false} NoFirstMatch(patterns: seq<Bytes>, input: Bytes, p: Bytes)
    requires FirstMatch(patterns, input).None? && p in patterns
    ensures !(p <= input)
    decreases |patterns|
  {
    if p != patterns[0] { NoFirstMatch(patterns[1..], input, p); }
  }

  /** What one scan step writes and where it ends. */
  datatype Step = Step(emitted: Bytes, end: nat)

  function StepAt(patterns: seq<Bytes>, input: Bytes, at: nat): (s: Step)
    requires Nonempty(patterns) && at < |input|
    ensures at < s.end <= |input|
  {
    match FirstMatch(patterns, input[at..])
    case Some(p) => Step(TOKEN, at + |p|)
    case None => Step([input[at]], at + 1)
  }

  // ---- Whole-buffer redaction ----

  function RedactFrom(patterns: seq<Bytes>, input: Bytes, at: nat): Bytes
    requires Nonempty(patterns) && at <= |input|
    decreases |input| - at
  {
    if at == |input| then []
    else
      var s := StepAt(patterns, input, at);
      s.emitted + RedactFrom(patterns, input, s.end)
  }

  function Redact(patterns: seq<Bytes>, input: Bytes): Bytes
    requires Nonempty(patterns)
  {
    RedactFrom(patterns, input, 0)
  }

  /** What a scan of match starts below a limit writes and where it stops. */
  function ScanFrom(patterns: seq<Bytes>, input: Bytes, at: nat, limit: nat): (s: Step)
    requires Nonempty(patterns) && at <= |input| && limit <= |input|
    ensures at <= s.end <= |input| && limit <= s.end
    decreases |input| - at
  {
    if at >= limit then Step([], at)
    else
      var s := StepAt(patterns, input, at);
      var rest := ScanFrom(patterns, input, s.end, limit);
      Step(s.emitted + rest.emitted, rest.end)
  }

  lemma {:induction false} FullScanIsRedact(patterns: seq<Bytes>, input: Bytes, at: nat)
    requires Nonempty(patterns) && at <= |input|
    ensures ScanFrom(patterns, input, at, |input|) == Step(RedactFrom(patterns, input, at), |input|)
    decreases |input| - at
  {
    if at < |input| { FullScanIsRedact(patterns, input, StepAt(patterns, input, at).end); }
  }

  /** A scan, then the redaction from where it stopped. */
  lemma {:induction false} ScanThenRest(patterns: seq<Bytes>, input: Bytes, at: nat, limit: nat)
    requires Nonempty(patterns) && at <= |input| && limit <= |input|
    ensures var scanned := ScanFrom(patterns, input, at, limit);
      RedactFrom(patterns, input, at) == scanned.emitted + RedactFrom(patterns, input, scanned.end)
    decreases |input| - at
  {
    if at < limit {
      var s := StepAt(patterns, input, at);
      ScanThenRest(patterns, input, s.end, limit);
      var rest := ScanFrom(patterns, input, s.end, limit);
      Reassociated(s.emitted, rest.emitted, RedactFrom(patterns, input, rest.end));
    }
  }

  lemma {:induction false} Reassociated(a: Bytes, b: Bytes, c: Bytes)
    ensures a + (b + c) == (a + b) + c
  {
  }

  lemma {:induction false} NothingToRedact(input: Bytes, at: nat, limit: nat)
    requires at <= limit <= |input|
    ensures ScanFrom([], input, at, limit) == Step(input[at..limit], limit)
    decreases limit - at
  {
    if at < limit {
      NothingToRedact(input, at + 1, limit);
      assert input[at..limit] == [input[at]] + input[at + 1..limit];
    }
  }

  /** The scanning loop; the limit bounds match starts, not match ends. */
  method Scan(patterns: seq<Bytes>, input: Bytes, startLimit: nat) returns (out: Bytes, consumed: nat)
    requires Nonempty(patterns) && startLimit <= |input|
    ensures Step(out, consumed) == ScanFrom(patterns, input, 0, startLimit)
  {
    if patterns == [] {
      NothingToRedact(input, 0, startLimit);
      return input[..startLimit], startLimit;
    }
    out, consumed := [], 0;
    while consumed < startLimit
      invariant consumed <= |input|
      invariant var rest := ScanFrom(patterns, input, consumed, startLimit);
        ScanFrom(patterns, input, 0, startLimit) == Step(out + rest.emitted, rest.end)
    {
      ghost var s := StepAt(patterns, input, consumed);
      Reassociated(out, s.emitted, ScanFrom(patterns, input, s.end, startLimit).emitted);
      match FirstMatch(patterns, input[consumed..])
      case Some(p) =>
        out, consumed := out + TOKEN, consumed + |p|;
      case None =>
        out, consumed := out + [input[consumed]], consumed + 1;
    }
    assert out + [] == out;
  }

  // ---- The undecided tail ----

  /** A later byte could still complete a longer pattern here. */
  predicate Undecided(patterns: seq<Bytes>, rest: Bytes) {
    patterns != [] && ((|patterns[0]| > |rest| && rest <= patterns[0]) || Undecided(patterns[1..], rest))
  }

  /** The first start whose interpretation may still change. */
  function UndecidedStart(patterns: seq<Bytes>, input: Bytes): (at: nat)
    ensures at <= |input|
    decreases |input|
  {
    if input == [] || Undecided(patterns, input) then 0 else 1 + UndecidedStart(patterns, input[1..])
  }

  /** Some pattern begins with all of this and goes on. */
  ghost predicate MayGrow(patterns: seq<Bytes>, rest: Bytes) {
    exists p <- patterns :: rest < p
  }

  lemma {:induction false} UndecidedMeans(patterns: seq<Bytes>, rest: Bytes)
    ensures Undecided(patterns, rest) <==> MayGrow(patterns, rest)
    decreases |patterns|
  {
    if patterns != [] {
      UndecidedMeans(patterns[1..], rest);
      if p :| p in patterns && rest < p { assert p == patterns[0] || p in patterns[1..]; }
      if p :| p in patterns[1..] && rest < p { assert p in patterns; }
      assert patterns[0] in patterns;
    }
  }

  method FindUndecided(patterns: seq<Bytes>, input: Bytes) returns (at: nat)
    ensures at == UndecidedStart(patterns, input)
    ensures at <= |input| && (at < |input| ==> MayGrow(patterns, input[at..]))
    ensures forall i :: 0 <= i < at ==> !MayGrow(patterns, input[i..])
  {
    hide Undecided, MayGrow;
    at := 0;
    forall i | 0 <= i < |input| ensures Undecided(patterns, input[i..]) <==> MayGrow(patterns, input[i..]) {
      UndecidedMeans(patterns, input[i..]);
    }
    assert input[0..] == input;
    while at < |input| && !Undecided(patterns, input[at..])
      invariant at <= |input| && UndecidedStart(patterns, input) == at + UndecidedStart(patterns, input[at..])
      invariant forall i :: 0 <= i < at ==> !MayGrow(patterns, input[i..])
    {
      assert input[at..][1..] == input[at + 1..];
      at := at + 1;
    }
  }

  /** The start found is undecided and every one before it is not. */
  lemma {:induction false} UndecidedStartIsFirst(patterns: seq<Bytes>, input: Bytes, i: nat)
    requires i <= UndecidedStart(patterns, input) && i < |input|
    ensures Undecided(patterns, input[i..]) <==> i == UndecidedStart(patterns, input)
    decreases i
  {
    if i == 0 {
      assert input[0..] == input;
    } else {
      UndecidedStartIsFirst(patterns, input[1..], i - 1);
      assert input[1..][i - 1..] == input[i..];
    }
  }

  lemma {:induction false} UndecidedPattern(patterns: seq<Bytes>, rest: Bytes)
    ensures Undecided(patterns, rest) <==> exists p <- patterns :: |p| > |rest| && rest <= p
  {
    if patterns != [] {
      UndecidedPattern(patterns[1..], rest);
      assert forall p <- patterns :: p == patterns[0] || p in patterns[1..];
      assert forall p <- patterns[1..] :: p in patterns;
    }
  }

  /** What can be written now, and how much of the input that takes. */
  function Available(patterns: seq<Bytes>, pending: Bytes): Step
    requires Nonempty(patterns)
  {
    ScanFrom(patterns, pending, 0, UndecidedStart(patterns, pending))
  }

  lemma {:induction false} PrefixOfExtension(p: Bytes, input: Bytes, more: Bytes)
    ensures p <= input + more <==> if |p| <= |input| then p <= input else input <= p && p[|input|..] <= more
  {
    if |p| <= |input| {
      assert (input + more)[..|p|] == input[..|p|];
    } else if |p| <= |input + more| {
      assert (input + more)[..|p|] == input + more[..|p| - |input|];
      assert p == p[..|input|] + p[|input|..];
    }
  }

  /** At a decided start, more input changes no match. */
  lemma {:induction false} DecidedMatch(patterns: seq<Bytes>, input: Bytes, more: Bytes)
    requires !Undecided(patterns, input)
    ensures FirstMatch(patterns, input + more) == FirstMatch(patterns, input)
    decreases |patterns|
  {
    if patterns != [] {
      PrefixOfExtension(patterns[0], input, more);
      DecidedMatch(patterns[1..], input, more);
    }
  }

  lemma {:induction false} DecidedStep(patterns: seq<Bytes>, input: Bytes, more: Bytes, at: nat)
    requires Nonempty(patterns) && at < UndecidedStart(patterns, input)
    ensures StepAt(patterns, input + more, at) == StepAt(patterns, input, at)
  {
    UndecidedStartIsFirst(patterns, input, at);
    DecidedMatch(patterns, input[at..], more);
    assert (input + more)[at..] == input[at..] + more;
  }

  /** Decided starts are scanned alike whatever follows. */
  lemma {:induction false} ScanDecided(patterns: seq<Bytes>, input: Bytes, at: nat, more: Bytes)
    requires Nonempty(patterns) && at <= |input|
    ensures var limit := UndecidedStart(patterns, input);
      ScanFrom(patterns, input + more, at, limit) == ScanFrom(patterns, input, at, limit)
    decreases |input| - at
  {
    if at < UndecidedStart(patterns, input) {
      DecidedStep(patterns, input, more, at);
      ScanDecided(patterns, input, StepAt(patterns, input, at).end, more);
    }
  }

  predicate Behind(whole: Bytes, n: nat, back: Bytes) {
    |whole| == n + |back| && whole[n..] == back
  }

  lemma {:induction false} StepBehind(patterns: seq<Bytes>, whole: Bytes, n: nat, back: Bytes, at: nat)
    requires Nonempty(patterns) && Behind(whole, n, back) && at < |back|
    ensures var s := StepAt(patterns, back, at); StepAt(patterns, whole, n + at) == Step(s.emitted, n + s.end)
  {
    assert whole[n + at..] == back[at..];
  }

  /** Redaction from a position depends only on what stands behind it. */
  lemma {:induction false} RedactBehind(patterns: seq<Bytes>, whole: Bytes, n: nat, back: Bytes, at: nat)
    requires Nonempty(patterns) && Behind(whole, n, back) && at <= |back|
    ensures RedactFrom(patterns, whole, n + at) == RedactFrom(patterns, back, at)
    decreases |back| - at
  {
    hide StepAt;
    if at < |back| {
      var s := StepAt(patterns, back, at);
      StepBehind(patterns, whole, n, back, at);
      RedactBehind(patterns, whole, n, back, s.end);
      assert RedactFrom(patterns, whole, n + at) == s.emitted + RedactFrom(patterns, whole, n + s.end);
    }
  }

  /** What is written now, then the redaction of what is held back and all that
      follows, is the redaction of everything. */
  lemma {:induction false} AvailableThenRest(patterns: seq<Bytes>, pending: Bytes, more: Bytes)
    requires Nonempty(patterns)
    ensures var now := Available(patterns, pending);
      Redact(patterns, pending + more) == now.emitted + Redact(patterns, pending[now.end..] + more)
  {
    ScanDecided(patterns, pending, 0, more);
    var limit := UndecidedStart(patterns, pending);
    AfterScan(patterns, pending + more, limit, pending[Available(patterns, pending).end..] + more);
  }

  lemma {:induction false} AfterScan(patterns: seq<Bytes>, whole: Bytes, limit: nat, back: Bytes)
    requires Nonempty(patterns) && limit <= |whole| && whole[ScanFrom(patterns, whole, 0, limit).end..] == back
    ensures Redact(patterns, whole) == ScanFrom(patterns, whole, 0, limit).emitted + Redact(patterns, back)
  {
    ScanThenRest(patterns, whole, 0, limit);
    RedactBehind(patterns, whole, ScanFrom(patterns, whole, 0, limit).end, back, 0);
  }

  /** What is held back is shorter than some pattern. */
  lemma {:induction false} HeldBackIsShort(patterns: seq<Bytes>, pending: Bytes)
    requires Nonempty(patterns)
    ensures var held := pending[Available(patterns, pending).end..];
      held == [] || exists p <- patterns :: |held| < |p|
  {
    var at := UndecidedStart(patterns, pending);
    if at < |pending| {
      UndecidedStartIsFirst(patterns, pending, at);
      UndecidedPattern(patterns, pending[at..]);
      var p :| p in patterns && |p| > |pending[at..]| && pending[at..] <= p;
    }
  }

  // ---- Any chunking ----

  function Joined(chunks: seq<Bytes>): Bytes {
    if chunks == [] then [] else chunks[0] + Joined(chunks[1..])
  }

  /** All bytes written when the input arrives in these chunks and then ends. */
  function Streamed(patterns: seq<Bytes>, pending: Bytes, chunks: seq<Bytes>): Bytes
    requires Nonempty(patterns)
    decreases |chunks|
  {
    if chunks == [] then Redact(patterns, pending)
    else
      var all := pending + chunks[0];
      var now := Available(patterns, all);
      now.emitted + Streamed(patterns, all[now.end..], chunks[1..])
  }

  /** Streaming redaction is whole-buffer redaction, however the input is cut. */
  lemma {:induction false} StreamingIsWhole(patterns: seq<Bytes>, pending: Bytes, chunks: seq<Bytes>)
    requires Nonempty(patterns)
    ensures Streamed(patterns, pending, chunks) == Redact(patterns, pending + Joined(chunks))
    decreases |chunks|
  {
    if chunks == [] {
      assert pending + [] == pending;
    } else {
      var all := pending + chunks[0];
      StreamingIsWhole(patterns, all[Available(patterns, all).end..], chunks[1..]);
      AvailableThenRest(patterns, all, Joined(chunks[1..]));
      Reassociated(pending, chunks[0], Joined(chunks[1..]));
    }
  }

  // ---- What redaction covers ----

  /** A stretch of the input and whether it was replaced. */
  datatype Span = Span(start: nat, end: nat, secret: bool)

  ghost predicate OccursAt(patterns: set<Bytes>, input: Bytes, at: nat, p: Bytes)
    requires at <= |input|
  {
    p in patterns && p <= input[at..]
  }

  /** A literal is one byte where no pattern begins; a replacement is the
      longest pattern beginning there. */
  ghost predicate JustifiedSpan(patterns: set<Bytes>, input: Bytes, s: Span) {
    && s.start < s.end <= |input|
    && if s.secret
       then OccursAt(patterns, input, s.start, input[s.start..s.end]) &&
            forall p :: OccursAt(patterns, input, s.start, p) ==> |p| <= s.end - s.start
       else s.end == s.start + 1 && forall p <- patterns :: !OccursAt(patterns, input, s.start, p)
  }

  /** Justified spans that tile the input from a position to its end. */
  ghost predicate Tiles(patterns: set<Bytes>, input: Bytes, from: nat, spans: seq<Span>)
    decreases |spans|
  {
    if spans == [] then from == |input|
    else
      && spans[0].start == from && JustifiedSpan(patterns, input, spans[0])
      && Tiles(patterns, input, spans[0].end, spans[1..])
  }

  function Rendered(input: Bytes, spans: seq<Span>): Bytes
    requires forall s <- spans :: s.start <= s.end <= |input|
  {
    if spans == [] then []
    else (if spans[0].secret then TOKEN else input[spans[0].start..spans[0].end]) + Rendered(input, spans[1..])
  }

  lemma {:induction false} TilesBounded(patterns: set<Bytes>, input: Bytes, from: nat, spans: seq<Span>)
    requires Tiles(patterns, input, from, spans)
    ensures forall s <- spans :: from <= s.start < s.end <= |input| && JustifiedSpan(patterns, input, s)
    decreases |spans|
  {
    if spans != [] {
      TilesBounded(patterns, input, spans[0].end, spans[1..]);
      assert forall s <- spans :: s == spans[0] || s in spans[1..];
    }
  }

  lemma {:induction false} FirstMatchIsLongest(patterns: seq<Bytes>, input: Bytes, p: Bytes)
    requires LongestFirst(patterns) && p in patterns && p <= input
    ensures FirstMatch(patterns, input).Some? && |p| <= |FirstMatch(patterns, input).value|
    decreases |patterns|
  {
    if !(patterns[0] <= input) {
      assert p in patterns[1..];
      FirstMatchIsLongest(patterns[1..], input, p);
    } else {
      var j :| 0 <= j < |patterns| && patterns[j] == p;
    }
  }

  /** The redaction renders a tiling of justified spans. */
  lemma {:induction false} RedactTiles(patterns: seq<Bytes>, input: Bytes, from: nat) returns (spans: seq<Span>)
    requires Usable(patterns) && from <= |input|
    ensures Tiles(Elements(patterns), input, from, spans)
    ensures forall s <- spans :: s.start <= s.end <= |input|
    ensures RedactFrom(patterns, input, from) == Rendered(input, spans)
    decreases |input| - from
  {
    spans := [];
    if from < |input| {
      var span := FrontSpan(patterns, input, from);
      var later := RedactTiles(patterns, input, span.end);
      spans := [span] + later;
      assert spans[1..] == later;
      TilesBounded(Elements(patterns), input, from, spans);
    }
  }

  /** The span of one step, and what that step writes. */
  lemma {:induction false} FrontSpan(patterns: seq<Bytes>, input: Bytes, from: nat) returns (span: Span)
    requires Usable(patterns) && from < |input|
    ensures span.start == from && JustifiedSpan(Elements(patterns), input, span)
    ensures StepAt(patterns, input, from) == Step(if span.secret then TOKEN else input[span.start..span.end], span.end)
  {
    var rest := input[from..];
    match FirstMatch(patterns, rest)
    case Some(p) =>
      span := Span(from, from + |p|, true);
      assert input[from..from + |p|] == rest[..|p|] == p;
      forall q | OccursAt(Elements(patterns), input, from, q) ensures |q| <= |p| {
        FirstMatchIsLongest(patterns, rest, q);
      }
    case None =>
      span := Span(from, from + 1, false);
      forall p <- patterns ensures !OccursAt(Elements(patterns), input, from, p) { NoFirstMatch(patterns, rest, p); }
      assert input[from..from + 1] == [input[from]];
  }

  /** There is only one such tiling: the set of patterns alone decides the redaction. */
  lemma {:induction false} TilingUnique(patterns: set<Bytes>, input: Bytes, from: nat, a: seq<Span>, b: seq<Span>)
    requires Tiles(patterns, input, from, a) && Tiles(patterns, input, from, b)
    ensures a == b
    decreases |a|
  {
    if a != [] && b != [] {
      if a[0].secret && b[0].secret {
        assert OccursAt(patterns, input, from, input[from..a[0].end]);
        assert OccursAt(patterns, input, from, input[from..b[0].end]);
      }
      assert a[0] == b[0];
      TilingUnique(patterns, input, a[0].end, a[1..], b[1..]);
      assert a == [a[0]] + a[1..] && b == [b[0]] + b[1..];
    }
  }

  /** Redactors holding the same secrets redact alike, however they list them. */
  lemma {:induction false} SameSecretsSameRedaction(a: seq<Bytes>, b: seq<Bytes>, input: Bytes)
    requires Usable(a) && Usable(b) && Elements(a) == Elements(b)
    ensures Redact(a, input) == Redact(b, input)
  {
    var left := RedactTiles(a, input, 0);
    var right := RedactTiles(b, input, 0);
    TilingUnique(Elements(a), input, 0, left, right);
  }

  /** Wherever a secret begins, its first byte lies in a replaced span. */
  lemma {:induction false} SecretStartsCovered(
      patterns: set<Bytes>, input: Bytes, from: nat, spans: seq<Span>, at: nat, p: Bytes)
    returns (s: Span)
    requires Tiles(patterns, input, from, spans) && from <= at < |input| && OccursAt(patterns, input, at, p)
    ensures s in spans && s.start <= at < s.end && s.secret
    decreases |spans|
  {
    if at < spans[0].end {
      s := spans[0];
    } else {
      s := SecretStartsCovered(patterns, input, spans[0].end, spans[1..], at, p);
    }
  }

  ghost predicate Covers(spans: seq<Span>, at: nat) {
    exists s <- spans :: s.start <= at < s.end && s.secret
  }

  /** A redaction renders justified spans that tile the input, and wherever a
      secret begins its first byte is not written out. */
  lemma {:induction false} RedactionCovers(patterns: seq<Bytes>, input: Bytes) returns (spans: seq<Span>)
    requires Usable(patterns)
    ensures Tiles(Elements(patterns), input, 0, spans)
    ensures forall s <- spans :: s.start <= s.end <= |input| && JustifiedSpan(Elements(patterns), input, s)
    ensures Redact(patterns, input) == Rendered(input, spans)
    ensures forall at: nat, p: Bytes :: at < |input| && OccursAt(Elements(patterns), input, at, p) ==> Covers(spans, at)
  {
    spans := RedactTiles(patterns, input, 0);
    TilesBounded(Elements(patterns), input, 0, spans);
    forall at: nat, p: Bytes | at < |input| && OccursAt(Elements(patterns), input, at, p) ensures Covers(spans, at) {
      var s := SecretStartsCovered(Elements(patterns), input, 0, spans, at, p);
    }
  }
}
