/** The capture relay (redaction.rs): secrets become ordered patterns, and a
    loop over reads, aborts and failing writes redacts a child's output. */
module Capture {
  import opened Graphs
  import opened ByteStrings
  import opened Redaction

  // ---- Patterns from secret values ----

  predicate RepeatsPrevious(patterns: seq<Bytes>, i: nat)
    requires 0 < i < |patterns|
  {
    patterns[i - 1] == patterns[i]
  }

  ghost predicate NoAdjacentTwins(patterns: seq<Bytes>) {
    forall i :: 0 < i < |patterns| ==> !RepeatsPrevious(patterns, i)
  }

  /** Stable sort by descending length: behind every value at least as long. */
  method SortLongestFirst(values: seq<Bytes>) returns (sorted: seq<Bytes>)
    ensures LongestFirst(sorted) && multiset(sorted) == multiset(values)
  {
    sorted := [];
    for n := 0 to |values|
      invariant LongestFirst(sorted) && multiset(sorted) == multiset(values[..n])
    {
      var at := 0;
      while at < |sorted| && |sorted[at]| >= |values[n]|
        invariant at <= |sorted| && forall i :: 0 <= i < at ==> |sorted[i]| >= |values[n]|
      {
        at := at + 1;
      }
      assert sorted == sorted[..at] + sorted[at..];
      assert values[..n + 1] == values[..n] + [values[n]];
      sorted := sorted[..at] + [values[n]] + sorted[at..];
    }
    assert values[..|values|] == values;
  }

  lemma {:induction false} NextPattern(sorted: seq<Bytes>, n: nat, patterns: seq<Bytes>)
    requires LongestFirst(sorted) && n < |sorted|
    requires LongestFirst(patterns) && Elements(patterns) == Elements(sorted[..n]) && NoAdjacentTwins(patterns)
    requires patterns == [] || patterns[|patterns| - 1] != sorted[n]
    ensures var longer := patterns + [sorted[n]];
      LongestFirst(longer) && NoAdjacentTwins(longer) && Elements(longer) == Elements(sorted[..n]) + {sorted[n]}
  {
    var longer := patterns + [sorted[n]];
    forall p <- patterns ensures |p| >= |sorted[n]| { assert p in Elements(sorted[..n]); }
    forall i | 0 < i < |longer| ensures !RepeatsPrevious(longer, i) {
      assert i < |patterns| ==> !RepeatsPrevious(patterns, i);
    }
  }

  method Dedup(sorted: seq<Bytes>) returns (patterns: seq<Bytes>)
    requires LongestFirst(sorted)
    ensures LongestFirst(patterns) && Elements(patterns) == Elements(sorted) && NoAdjacentTwins(patterns)
  {
    patterns := [];
    for n := 0 to |sorted|
      invariant LongestFirst(patterns) && Elements(patterns) == Elements(sorted[..n]) && NoAdjacentTwins(patterns)
      invariant n > 0 ==> patterns != [] && patterns[|patterns| - 1] == sorted[n - 1]
    {
      assert sorted[..n + 1] == sorted[..n] + [sorted[n]];
      if patterns == [] || patterns[|patterns| - 1] != sorted[n] {
        NextPattern(sorted, n, patterns);
        patterns := patterns + [sorted[n]];
      }
    }
    assert sorted[..|sorted|] == sorted;
  }

  /** The redactor of some secrets: the same values, longest first. */
  method FromSecrets(values: seq<Bytes>) returns (patterns: seq<Bytes>)
    ensures LongestFirst(patterns) && Elements(patterns) == Elements(values) && NoAdjacentTwins(patterns)
    ensures Nonempty(values) ==> Usable(patterns)
  {
    var sorted := SortLongestFirst(values);
    patterns := Dedup(sorted);
    forall v ensures v in sorted <==> v in values { assert v in multiset(sorted) <==> v in multiset(values); }
    forall p <- patterns | Nonempty(values) ensures p != [] { assert p in Elements(patterns); }
  }

  // ---- The relay ----

  datatype Poll = PollFailed | Interrupted | TimedOut | Readable
  datatype Read = Data(bytes: Bytes) | End | WouldBlock | ReadFailed
  /** A write fails only where it has something to write. */
  datatype Write = WritesAll | FailsAfter(accepted: nat)

  /** What the outside world does during one round of the loop. */
  datatype Turn = Turn(abortedBefore: bool, poll: Poll, abortedAfter: bool, read: Read, write: Write)

  datatype Outcome = Complete | Incomplete | Failed | Running

  /** The round gets to read: an abort, before polling or noticed after it, wins
      over anything readable. */
  predicate Reads(t: Turn) {
    !t.abortedBefore && t.poll == Readable && !t.abortedAfter
  }

  /** The loop stands at this outcome after the round. */
  predicate EndsIn(t: Turn, o: Outcome) {
    match o
    case Incomplete => t.abortedBefore || (t.poll == Readable && t.abortedAfter)
    case Complete => Reads(t) && t.read == End
    case Failed =>
      && !t.abortedBefore
      && (t.poll == PollFailed
          || (Reads(t) && (t.read == ReadFailed || (t.read.Data? && t.write.FailsAfter?))))
    case Running =>
      && !t.abortedBefore
      && (t.poll == Interrupted || t.poll == TimedOut
          || (Reads(t) && (t.read == WouldBlock || (t.read.Data? && t.write == WritesAll))))
  }

  /** What the first `n` rounds read. */
  function AllRead(turns: seq<Turn>, n: nat): Bytes
    requires n <= |turns|
  {
    if n == 0 then []
    else
      AllRead(turns, n - 1) +
      if Reads(turns[n - 1]) && turns[n - 1].read.Data? then turns[n - 1].read.bytes else []
  }

  /** The loop went `used` rounds and stands at `outcome`. */
  ghost predicate WentTo(turns: seq<Turn>, used: nat, outcome: Outcome) {
    && used <= |turns|
    && (forall i :: 0 <= i < used - 1 ==> EndsIn(turns[i], Running))
    && if used == 0 then outcome == Running else EndsIn(turns[used - 1], outcome)
  }

  /** The redaction of what came first with what follows. */
  ghost function RedactWith(patterns: seq<Bytes>, front: Bytes, more: Bytes): Bytes
    requires Nonempty(patterns)
  {
    Redact(patterns, front + more)
  }

  /** Whatever follows, `written` and the redaction of `pending` with it make the
      redaction of everything received. */
  ghost predicate InStep(patterns: seq<Bytes>, received: Bytes, written: Bytes, pending: Bytes)
    requires Nonempty(patterns)
  {
    forall more: Bytes :: RedactWith(patterns, received, more) == written + RedactWith(patterns, pending, more)
  }

  /** Nothing written could have been redacted otherwise. */
  ghost predicate SafePrefix(patterns: seq<Bytes>, received: Bytes, written: Bytes)
    requires Nonempty(patterns)
  {
    forall more: Bytes :: written <= RedactWith(patterns, received, more)
  }

  lemma {:induction false} InStepNext(
      patterns: seq<Bytes>, received: Bytes, written: Bytes, pending: Bytes, chunk: Bytes)
    requires Nonempty(patterns) && InStep(patterns, received, written, pending)
    ensures var all := pending + chunk; var now := Available(patterns, all);
      InStep(patterns, received + chunk, written + now.emitted, all[now.end..])
  {
    var all: Bytes := pending + chunk;
    var now := Available(patterns, all);
    forall more: Bytes
      ensures RedactWith(patterns, received + chunk, more) ==
        written + now.emitted + RedactWith(patterns, all[now.end..], more)
    {
      Reassociated(received, chunk, more);
      Reassociated(pending, chunk, more);
      assert RedactWith(patterns, received, chunk + more) == written + RedactWith(patterns, pending, chunk + more);
      AvailableThenRest(patterns, all, more);
      Reassociated(written, now.emitted, RedactWith(patterns, all[now.end..], more));
    }
  }

  lemma {:induction false} InStepIsSafe(patterns: seq<Bytes>, received: Bytes, written: Bytes, pending: Bytes)
    requires Nonempty(patterns) && InStep(patterns, received, written, pending)
    ensures SafePrefix(patterns, received, written)
    ensures Redact(patterns, received) == written + Redact(patterns, pending)
  {
    assert received + [] == received && pending + [] == pending;
    assert RedactWith(patterns, received, []) == written + RedactWith(patterns, pending, []);
  }

  lemma {:induction false} SafeNow(patterns: seq<Bytes>, received: Bytes, written: Bytes)
    requires Nonempty(patterns) && SafePrefix(patterns, received, written)
    ensures written <= Redact(patterns, received)
  {
    assert received + [] == received;
    assert written <= RedactWith(patterns, received, []);
  }

  lemma {:induction false} SafeShorter(patterns: seq<Bytes>, received: Bytes, written: Bytes, n: nat)
    requires Nonempty(patterns) && SafePrefix(patterns, received, written) && n <= |written|
    ensures SafePrefix(patterns, received, written[..n])
  {
  }

  /** What of `redacted` a write leaves behind. */
  function Accepted(redacted: Bytes, w: Write): Bytes {
    match w
    case WritesAll => redacted
    case FailsAfter(n) => redacted[..if n < |redacted| then n else |redacted|]
  }

  class Relay {
    const patterns: seq<Bytes>
    var pending: Bytes
    var written: Bytes
    ghost var received: Bytes

    constructor (patterns: seq<Bytes>)
      requires Nonempty(patterns)
      ensures Valid() && this.patterns == patterns && received == [] && written == []
    {
      this.patterns := patterns;
      pending, written, received := [], [], [];
      new;
      forall more: Bytes ensures RedactWith(patterns, [], more) == [] + RedactWith(patterns, [], more) {}
    }

    ghost predicate Valid()
      reads this
    {
      && Nonempty(patterns)
      && InStep(patterns, received, written, pending)
      && (pending == [] || exists p <- patterns :: |pending| < |p|)
    }

    /** Drains what is decided out of `pending`. */
    method RedactAvailable() returns (out: Bytes)
      requires Nonempty(patterns)
      modifies this`pending
      ensures var now := Available(patterns, old(pending)); out == now.emitted && pending == old(pending)[now.end..]
    {
      var limit := FindUndecided(patterns, pending);
      var consumed;
      out, consumed := Scan(patterns, pending, limit);
      pending := pending[consumed..];
    }

    /** One chunk read and redacted; a failing write stops the relay. */
    method Feed(chunk: Bytes, write: Write) returns (ok: bool)
      requires Valid()
      modifies this
      ensures ok <==> write.WritesAll?
      ensures received == old(received) + chunk
      ensures ok ==> Valid()
      ensures Nonempty(patterns) && SafePrefix(patterns, received, written)
    {
      InStepNext(patterns, received, written, pending, chunk);
      HeldBackIsShort(patterns, pending + chunk);
      ghost var before := written;
      pending, received := pending + chunk, received + chunk;
      var redacted := RedactAvailable();
      InStepIsSafe(patterns, received, before + redacted, pending);
      written := written + Accepted(redacted, write);
      ok := write.WritesAll?;
      if !ok {
        SafeShorter(patterns, received, before + redacted, |written|);
        assert written == (before + redacted)[..|written|];
      }
    }

    /** One round of the loop. */
    method Take(t: Turn) returns (outcome: Outcome)
      requires Valid()
      modifies this
      ensures EndsIn(t, outcome)
      ensures received == old(received) + if Reads(t) && t.read.Data? then t.read.bytes else []
      ensures outcome != Failed ==> Valid()
      ensures Nonempty(patterns) && SafePrefix(patterns, received, written)
    {
      InStepIsSafe(patterns, received, written, pending);
      assert received + [] == received;
      if t.abortedBefore { return Incomplete; }
      if t.poll.PollFailed? { return Failed; }
      if !t.poll.Readable? { return Running; }
      if t.abortedAfter { return Incomplete; }
      match t.read
      case End => return Complete;
      case WouldBlock => return Running;
      case ReadFailed => return Failed;
      case Data(bytes) =>
        var ok := Feed(bytes, t.write);
        outcome := if ok then Running else Failed;
    }

    /** The pending tail, redacted and written once the stream has ended. */
    method Finish(last: Write) returns (ok: bool)
      requires Valid()
      modifies this`written
      ensures Nonempty(patterns) && written <= Redact(patterns, received)
      ensures ok <==> pending == [] || last.WritesAll?
      ensures ok ==> written == Redact(patterns, received)
    {
      InStepIsSafe(patterns, received, written, pending);
      if pending == [] {
        assert written + [] == written;
        return true;
      }
      var redacted, consumed := Scan(patterns, pending, |pending|);
      FullScanIsRedact(patterns, pending, 0);
      written := written + Accepted(redacted, last);
      ok := last.WritesAll?;
    }

    /** Rounds until one of them ends the relay or the schedule runs out. */
    method Loop(turns: seq<Turn>) returns (outcome: Outcome, used: nat)
      requires Valid()
      modifies this
      ensures WentTo(turns, used, outcome) && (outcome == Running ==> used == |turns|)
      ensures received == old(received) + AllRead(turns, used)
      ensures outcome != Failed ==> Valid()
      ensures Nonempty(patterns) && SafePrefix(patterns, received, written)
    {
      outcome, used := Running, 0;
      InStepIsSafe(patterns, received, written, pending);
      while used < |turns| && outcome == Running
        invariant WentTo(turns, used, outcome) && received == old(received) + AllRead(turns, used)
        invariant outcome != Failed ==> Valid()
        invariant Nonempty(patterns) && SafePrefix(patterns, received, written)
        decreases |turns| - used
      {
        ghost var t := turns[used];
        Reassociated(old(received), AllRead(turns, used), if Reads(t) && t.read.Data? then t.read.bytes else []);
        outcome := Take(turns[used]);
        used := used + 1;
      }
    }

    /** The loop, then the tail: only a stream read to its end has its pending
        bytes redacted and written; an incomplete one keeps them back. */
    method Run(turns: seq<Turn>, last: Write, flushed: bool) returns (outcome: Outcome, used: nat, ghost ended: Outcome)
      requires Valid()
      modifies this
      ensures WentTo(turns, used, ended) && received == old(received) + AllRead(turns, used)
      ensures ended == Running <==> used == |turns| && forall i :: 0 <= i < used ==> EndsIn(turns[i], Running)
      ensures ended == Complete <==>
        && used > 0 && !turns[used - 1].abortedBefore && turns[used - 1].poll == Readable
        && !turns[used - 1].abortedAfter && turns[used - 1].read == End
      ensures ended == Incomplete <==>
        && used > 0
        && (turns[used - 1].abortedBefore || (turns[used - 1].poll == Readable && turns[used - 1].abortedAfter))
      ensures forall i :: 0 <= i < used - 1 ==> !turns[i].abortedBefore && turns[i].poll != PollFailed
      ensures forall i :: 0 <= i < used - 1 && turns[i].poll == Readable ==>
        && !turns[i].abortedAfter
        && (turns[i].read == WouldBlock || (turns[i].read.Data? && turns[i].write == WritesAll))
      ensures outcome == if (ended == Complete && pending != [] && last.FailsAfter?) || (ended != Running && !flushed)
        then Failed else ended
      ensures outcome == Running ==> used == |turns|
      ensures Nonempty(patterns) && written <= Redact(patterns, received)
      ensures outcome == Complete ==> written == Redact(patterns, received)
      ensures ended != Complete ==> SafePrefix(patterns, received, written)
      ensures ended == Incomplete || ended == Running ==> Valid()
    {
      outcome, used := Loop(turns);
      ended := outcome;
      SafeNow(patterns, received, written);
      if outcome == Complete {
        var ok := Finish(last);
        if !ok { outcome := Failed; }
      }
      if !flushed && outcome != Running { outcome := Failed; }
    }
  }
}
