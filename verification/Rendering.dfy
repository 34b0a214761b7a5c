/** How labelled output is rendered (presenter.rs, `deliver`): whole lines
    behind their tag, over-long unfinished lines cut, the rest kept. */
module Rendering {
  import opened Wrappers
  import opened ByteStrings

  const MAX_LINE: nat := 8192
  const NEWLINE: byte := 10

  function FirstNewline(text: Bytes): (r: Option<nat>)
    ensures r.Some? ==> r.value < |text| && text[r.value] == NEWLINE && forall i :: 0 <= i < r.value ==>
      text[i] != NEWLINE
    ensures r.None? ==> forall i :: 0 <= i < |text| ==> text[i] != NEWLINE
  {
    if text == [] then None
    else if text[0] == NEWLINE then Some(0)
    else match FirstNewline(text[1..]) case None => None case Some(i) => Some(i + 1)
  }

  /** What is written, and the unfinished line that stays. */
  datatype Delivered = Delivered(out: Bytes, rest: Bytes)

  function Behind(out: Bytes, d: Delivered): Delivered {
    Delivered(out + d.out, d.rest)
  }

  /** The piece the next write takes off the front, if there is one: a finished
      line, or the first part of an over-long unfinished one. */
  datatype Piece = Line(bytes: Bytes) | Cut(bytes: Bytes)

  function NextPiece(text: Bytes): (p: Option<Piece>)
    ensures p.Some? ==> p.value.bytes != [] && p.value.bytes <= text
  {
    match FirstNewline(text)
    case Some(i) => Some(Line(text[..i + 1]))
    case None => if |text| > MAX_LINE then Some(Cut(text[..MAX_LINE])) else None
  }

  function Render(tag: Bytes, p: Piece): Bytes {
    match p
    case Line(bytes) => tag + bytes
    case Cut(bytes) => tag + bytes + [NEWLINE]
  }

  /** All pieces of a text, and what is left unfinished. */
  function Deliver(tag: Bytes, text: Bytes): Delivered
    decreases |text|
  {
    match NextPiece(text)
    case None => Delivered([], text)
    case Some(p) => Behind(Render(tag, p), Deliver(tag, text[|p.bytes|..]))
  }

  // ---- Cutting the input into chunks ----

  /** Delivering one stretch and then, behind what it left, another. */
  function Through(tag: Bytes, a: Bytes, b: Bytes): Delivered {
    var first := Deliver(tag, a);
    Behind(first.out, Deliver(tag, first.rest + b))
  }

  /** Every finished line has at most MAX_LINE bytes before its newline. */
  predicate ShortLines(text: Bytes)
    decreases |text|
  {
    match FirstNewline(text)
    case None => true
    case Some(i) => i <= MAX_LINE && ShortLines(text[i + 1..])
  }

  lemma {:induction false} FirstNewlineIs(text: Bytes, i: nat)
    requires i < |text| && text[i] == NEWLINE && forall j :: 0 <= j < i ==> text[j] != NEWLINE
    ensures FirstNewline(text) == Some(i)
  {
  }

  lemma {:induction false} NoNewline(text: Bytes)
    requires forall j :: 0 <= j < |text| ==> text[j] != NEWLINE
    ensures FirstNewline(text) == None
  {
  }

  /** A finished line stays the first piece whatever follows. */
  lemma {:induction false} FirstLineStays(a: Bytes, b: Bytes, i: nat)
    requires FirstNewline(a) == Some(i)
    ensures FirstNewline(a + b) == Some(i) && (a + b)[..i + 1] == a[..i + 1] && (a + b)[i + 1..] == a[i + 1..] + b
  {
    FirstNewlineIs(a + b, i);
  }

  lemma {:induction false} BehindBehind(x: Bytes, y: Bytes, d: Delivered)
    ensures Behind(x, Behind(y, d)) == Behind(x + y, d)
  {
    assert x + (y + d.out) == (x + y) + d.out;
  }

  lemma {:induction false} BehindNothing(d: Delivered)
    ensures Behind([], d) == d
  {
    assert [] + d.out == d.out;
  }

  /** With short lines, where the input is cut does not matter. */
  lemma {:induction false} ShortLinesSplit(tag: Bytes, a: Bytes, b: Bytes)
    requires ShortLines(a + b)
    ensures Through(tag, a, b) == Deliver(tag, a + b)
    decreases |a|
  {
    match NextPiece(a)
    case None => BehindNothing(Deliver(tag, a + b));
    case Some(p) =>
      var later: Bytes := a[|p.bytes|..];
      PieceStays(a, b, p);
      ShortLinesSplit(tag, later, b);
      var first := Deliver(tag, later);
      BehindBehind(Render(tag, p), first.out, Deliver(tag, first.rest + b));
  }

  lemma {:induction false} PieceStays(a: Bytes, b: Bytes, p: Piece)
    requires ShortLines(a + b) && NextPiece(a) == Some(p)
    ensures NextPiece(a + b) == Some(p) && (a + b)[|p.bytes|..] == a[|p.bytes|..] + b
    ensures ShortLines(a[|p.bytes|..] + b)
  {
    match FirstNewline(a)
    case Some(i) => FirstLineStays(a, b, i);
    case None =>
      NoLineEnds(a, b);
      assert (a + b)[..MAX_LINE] == a[..MAX_LINE];
      var later: Bytes := a[MAX_LINE..] + b;
      assert (a + b)[MAX_LINE..] == later;
      forall j | 0 <= j < |later| ensures later[j] != NEWLINE { assert later[j] == (a + b)[MAX_LINE + j]; }
  }

  /** An unfinished line over the limit is never finished in a short-lined text. */
  lemma {:induction false} NoLineEnds(a: Bytes, b: Bytes)
    requires ShortLines(a + b) && FirstNewline(a).None? && |a| > MAX_LINE
    ensures FirstNewline(a + b).None?
  {
    assert forall i :: 0 <= i < |a| ==> (a + b)[i] == a[i];
  }

  /** Behind a line too long for its buffer, the cut shows. */
  lemma {:induction false} LongLineSplits(tag: Bytes, text: Bytes, i: nat)
    requires FirstNewline(text) == Some(i) && i > MAX_LINE
    ensures Through(tag, text[..MAX_LINE + 1], text[MAX_LINE + 1..]) != Deliver(tag, text)
  {
    var a, b := text[..MAX_LINE + 1], text[MAX_LINE + 1..];
    NoNewline(a);
    var whole, split := Deliver(tag, text).out, Through(tag, a, b).out;
    var line := tag + text[..i + 1];
    var cut := tag + a[..MAX_LINE] + [NEWLINE];
    assert line <= whole && line[|tag| + MAX_LINE] == text[MAX_LINE] != NEWLINE;
    var rest := Deliver(tag, a[MAX_LINE..]);
    assert Deliver(tag, a).out == cut + rest.out;
    assert cut <= split && cut[|tag| + MAX_LINE] == NEWLINE;
    assert whole[|tag| + MAX_LINE] != split[|tag| + MAX_LINE];
  }

  lemma {:induction false} DeliverLine(tag: Bytes, text: Bytes, i: nat)
    requires FirstNewline(text) == Some(i)
    ensures Deliver(tag, text) == Behind(tag + text[..i + 1], Deliver(tag, text[i + 1..]))
  {
    var line := Line(text[..i + 1]);
    assert NextPiece(text) == Some(line) && |line.bytes| == i + 1;
  }

  lemma {:induction false} ThroughLine(tag: Bytes, a: Bytes, b: Bytes, i: nat)
    requires FirstNewline(a) == Some(i)
    ensures Through(tag, a, b) == Behind(tag + a[..i + 1], Through(tag, a[i + 1..], b))
  {
    DeliverLine(tag, a, i);
    var first := Deliver(tag, a[i + 1..]);
    BehindBehind(tag + a[..i + 1], first.out, Deliver(tag, first.rest + b));
  }

  lemma {:induction false} LineInFront(text: Bytes, i: nat, a: Bytes, b: Bytes)
    requires FirstNewline(text) == Some(i) && a + b == text[i + 1..]
    ensures var longer := text[..i + 1] + a;
      longer + b == text && FirstNewline(longer) == Some(i) && longer[..i + 1] == text[..i + 1] && longer[i + 1..] == a
  {
    var longer: Bytes := text[..i + 1] + a;
    assert text == text[..i + 1] + text[i + 1..];
    FirstNewlineIs(longer, i);
  }

  /** A split that shows behind a finished line shows with the line in front. */
  lemma {:induction false} SplitBehindLine(tag: Bytes, text: Bytes, i: nat, a: Bytes, b: Bytes)
    requires FirstNewline(text) == Some(i) && a + b == text[i + 1..]
    requires Through(tag, a, b) != Deliver(tag, text[i + 1..])
    ensures (text[..i + 1] + a) + b == text && Through(tag, text[..i + 1] + a, b) != Deliver(tag, text)
  {
    var longer: Bytes := text[..i + 1] + a;
    LineInFront(text, i, a, b);
    DeliverLine(tag, text, i);
    ThroughLine(tag, longer, b, i);
    BehindDiffers(tag + text[..i + 1], Through(tag, a, b), Deliver(tag, text[i + 1..]));
  }

  lemma {:induction false} SomeSplitShows(tag: Bytes, text: Bytes) returns (a: Bytes, b: Bytes)
    requires !ShortLines(text)
    ensures a + b == text && Through(tag, a, b) != Deliver(tag, text)
    decreases |text|
  {
    var i := FirstNewline(text).value;
    if i > MAX_LINE {
      LongLineSplits(tag, text, i);
      a, b := text[..MAX_LINE + 1], text[MAX_LINE + 1..];
    } else {
      var later: Bytes;
      later, b := SomeSplitShows(tag, text[i + 1..]);
      SplitBehindLine(tag, text, i, later, b);
      a := text[..i + 1] + later;
    }
  }

  lemma {:induction false} BehindDiffers(out: Bytes, x: Delivered, y: Delivered)
    requires x != y
    ensures Behind(out, x) != Behind(out, y)
  {
    if x.out != y.out {
      assert (out + x.out)[|out|..] == x.out && (out + y.out)[|out|..] == y.out;
    }
  }

  /** The rendering of a labelled source is independent of how reads cut it
      exactly when no finished line is longer than the buffer. */
  lemma {:induction false} ChunkingIrrelevantIffShortLines(tag: Bytes, text: Bytes)
    ensures (forall a: Bytes, b: Bytes {:trigger Through(tag, a, b)} :: a + b == text ==>
      Through(tag, a, b) == Deliver(tag, text)) <==> ShortLines(text)
  {
    if ShortLines(text) {
      forall a: Bytes, b: Bytes | a + b == text ensures Through(tag, a, b) == Deliver(tag, text) {
        ShortLinesSplit(tag, a, b);
      }
    } else {
      var a, b := SomeSplitShows(tag, text);
    }
  }

  // ---- Pieces ----

  predicate Unfinished(bytes: Bytes) {
    |bytes| <= MAX_LINE && forall i :: 0 <= i < |bytes| ==> bytes[i] != NEWLINE
  }

  /** A finished line ends in its only newline; a cut has exactly MAX_LINE bytes of a line. */
  predicate WellCut(p: Piece) {
    match p
    case Line(bytes) => FirstNewline(bytes) == Some(|bytes| - 1)
    case Cut(bytes) => |bytes| == MAX_LINE && Unfinished(bytes)
  }

  function Spelled(pieces: seq<Piece>): Bytes {
    if pieces == [] then [] else pieces[0].bytes + Spelled(pieces[1..])
  }

  function Rendered(tag: Bytes, pieces: seq<Piece>): Bytes {
    if pieces == [] then [] else Render(tag, pieces[0]) + Rendered(tag, pieces[1..])
  }

  function Pieces(text: Bytes): seq<Piece>
    decreases |text|
  {
    match NextPiece(text)
    case None => []
    case Some(p) => [p] + Pieces(text[|p.bytes|..])
  }

  lemma {:induction false} NextIsWellCut(text: Bytes)
    requires NextPiece(text).Some?
    ensures WellCut(NextPiece(text).value)
  {
    if FirstNewline(text).Some? {
      var i := FirstNewline(text).value;
      FirstNewlineIs(text[..i + 1], i);
    }
  }

  /** What is written renders the pieces; the pieces, then the unfinished line,
      spell all of the input in order: nothing lost, nothing twice. */
  predicate Accounts(tag: Bytes, all: Bytes, pieces: seq<Piece>, d: Delivered) {
    && d.out == Rendered(tag, pieces) && all == Spelled(pieces) + d.rest && Unfinished(d.rest)
    && forall p <- pieces :: WellCut(p)
  }

  lemma {:induction false} Reassociated(a: Bytes, b: Bytes, c: Bytes)
    ensures (a + b) + c == a + (b + c)
  {
  }

  lemma {:induction false} PieceInFront(
      tag: Bytes, text: Bytes, p: Piece, later: Bytes, pieces: seq<Piece>, d: Delivered)
    requires text == p.bytes + later && WellCut(p) && Accounts(tag, later, pieces, d)
    ensures Accounts(tag, text, [p] + pieces, Behind(Render(tag, p), d))
  {
    var longer := [p] + pieces;
    assert longer[0] == p && longer[1..] == pieces;
    Reassociated(p.bytes, Spelled(pieces), d.rest);
  }

  lemma {:induction false} DeliverAccounts(tag: Bytes, text: Bytes)
    ensures Accounts(tag, text, Pieces(text), Deliver(tag, text))
    decreases |text|
  {
    if NextPiece(text).Some? {
      var p := NextPiece(text).value;
      var later: Bytes := text[|p.bytes|..];
      NextIsWellCut(text);
      DeliverAccounts(tag, later);
      PieceInFront(tag, text, p, later, Pieces(later), Deliver(tag, later));
    } else {
      assert Spelled([]) + text == text;
    }
  }

  lemma {:induction false} PiecesJoin(tag: Bytes, a: seq<Piece>, b: seq<Piece>)
    ensures Spelled(a + b) == Spelled(a) + Spelled(b) && Rendered(tag, a + b) == Rendered(tag, a) + Rendered(tag, b)
    decreases |a|
  {
    if a == [] {
      assert a + b == b;
    } else {
      PiecesJoin(tag, a[1..], b);
      assert (a + b)[0] == a[0] && (a + b)[1..] == a[1..] + b;
      Reassociated(a[0].bytes, Spelled(a[1..]), Spelled(b));
      Reassociated(Render(tag, a[0]), Rendered(tag, a[1..]), Rendered(tag, b));
    }
  }

  lemma {:induction false} AccountsJoin(
    tag: Bytes, all: Bytes, pieces: seq<Piece>, d: Delivered, bytes: Bytes, more: seq<Piece>, e: Delivered)
    requires Accounts(tag, all, pieces, d) && Accounts(tag, d.rest + bytes, more, e)
    ensures Accounts(tag, all + bytes, pieces + more, Behind(d.out, e))
  {
    PiecesJoin(tag, pieces, more);
    Reassociated(Spelled(pieces), d.rest, bytes);
    Reassociated(Spelled(pieces), Spelled(more), e.rest);
  }

  // ---- Any number of chunks ----

  function Joined(chunks: seq<Bytes>, n: nat): Bytes
    requires n <= |chunks|
  {
    if n == 0 then [] else Joined(chunks, n - 1) + chunks[n - 1]
  }

  /** All that is written and kept after the first `n` chunks, one by one. */
  function Chunked(tag: Bytes, chunks: seq<Bytes>, n: nat): Delivered
    requires n <= |chunks|
  {
    if n == 0 then Delivered([], [])
    else
      var before := Chunked(tag, chunks, n - 1);
      Behind(before.out, Deliver(tag, before.rest + chunks[n - 1]))
  }

  lemma {:induction false} ShortLinesPrefix(a: Bytes, b: Bytes)
    requires ShortLines(a + b)
    ensures ShortLines(a)
    decreases |a|
  {
    if FirstNewline(a).Some? {
      var i := FirstNewline(a).value;
      FirstLineStays(a, b, i);
      ShortLinesPrefix(a[i + 1..], b);
    }
  }

  lemma {:induction false} ChunkedIsWhole(tag: Bytes, chunks: seq<Bytes>, n: nat)
    requires n <= |chunks| && ShortLines(Joined(chunks, n))
    ensures Chunked(tag, chunks, n) == Deliver(tag, Joined(chunks, n))
    decreases n
  {
    if n > 0 {
      ShortLinesPrefix(Joined(chunks, n - 1), chunks[n - 1]);
      ChunkedIsWhole(tag, chunks, n - 1);
      ShortLinesSplit(tag, Joined(chunks, n - 1), chunks[n - 1]);
    }
  }

  /** The pieces taken off chunk by chunk. */
  function ChunkedPieces(tag: Bytes, chunks: seq<Bytes>, n: nat): seq<Piece>
    requires n <= |chunks|
  {
    if n == 0 then []
    else ChunkedPieces(tag, chunks, n - 1) + Pieces(Chunked(tag, chunks, n - 1).rest + chunks[n - 1])
  }

  /** However the input is cut, the pieces account for all of it. */
  lemma {:induction false} ChunkedConserves(tag: Bytes, chunks: seq<Bytes>, n: nat)
    requires n <= |chunks|
    ensures Accounts(tag, Joined(chunks, n), ChunkedPieces(tag, chunks, n), Chunked(tag, chunks, n))
    decreases n
  {
    if n > 0 {
      ChunkedConserves(tag, chunks, n - 1);
      var before := Chunked(tag, chunks, n - 1);
      var text := before.rest + chunks[n - 1];
      DeliverAccounts(tag, text);
      AccountsJoin(tag, Joined(chunks, n - 1), ChunkedPieces(tag, chunks, n - 1), before,
        chunks[n - 1], Pieces(text), Deliver(tag, text));
    }
  }

  /** Earlier chunks are delivered alike whatever follows them. */
  lemma {:induction false} ChunkedPrefix(tag: Bytes, chunks: seq<Bytes>, more: Bytes, n: nat)
    requires n <= |chunks|
    ensures Chunked(tag, chunks + [more], n) == Chunked(tag, chunks, n)
    ensures Joined(chunks + [more], n) == Joined(chunks, n)
    decreases n
  {
    if n > 0 { ChunkedPrefix(tag, chunks, more, n - 1); }
  }
}
