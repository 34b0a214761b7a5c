/** Tailing a run's output files into bounded queues (presenter.rs): every byte
    read is accepted, blocked or unfinished, in order, and at the end accepted. */
module Presenter {
  import opened Wrappers
  import opened ByteStrings
  import opened Rendering

  const CHUNK: nat := 65536
  const SOURCE_BUDGET: nat := 1048576

  // ---- Rendering by two loops ----

  lemma {:induction false} DeliversOneMore(tag: Bytes, text: Bytes, rendered: Bytes, left: Bytes, p: Piece)
    requires Deliver(tag, text) == Behind(rendered, Deliver(tag, left)) && NextPiece(left) == Some(p)
    ensures Deliver(tag, text) == Behind(rendered + Render(tag, p), Deliver(tag, left[|p.bytes|..]))
  {
    BehindBehind(rendered, Render(tag, p), Deliver(tag, left[|p.bytes|..]));
  }

  /** All whole lines out, then what is over the limit, behind the label. */
  method RenderLines(tag: Bytes, text: Bytes) returns (rendered: Bytes, left: Bytes)
    ensures Delivered(rendered, left) == Deliver(tag, text) && Unfinished(left)
  {
    rendered, left := [], text;
    BehindNothing(Deliver(tag, text));
    var newline := FirstNewline(left);
    while newline.Some?
      invariant newline == FirstNewline(left)
      invariant Deliver(tag, text) == Behind(rendered, Deliver(tag, left))
      decreases |left|
    {
      var line := left[..newline.value + 1];
      DeliversOneMore(tag, text, rendered, left, Line(line));
      rendered, left := rendered + (tag + line), left[newline.value + 1..];
      newline := FirstNewline(left);
    }
    while |left| > MAX_LINE
      invariant FirstNewline(left) == None
      invariant Deliver(tag, text) == Behind(rendered, Deliver(tag, left))
      decreases |left|
    {
      var cut := left[..MAX_LINE];
      DeliversOneMore(tag, text, rendered, left, Cut(cut));
      NoNewline(left[MAX_LINE..]);
      rendered, left := rendered + (tag + cut + [NEWLINE]), left[MAX_LINE..];
    }
    assert rendered + [] == rendered;
  }

  // ---- Queues ----

  datatype Stream = Stdout | Stderr

  /** Bytes a stream's queue accepted, with the source they came from. */
  datatype Item = Item(path: string, bytes: Bytes)

  /** All bytes of one source among the items, in order. */
  function Sent(items: seq<Item>, path: string): Bytes {
    if items == [] then []
    else
      var last := items[|items| - 1];
      Sent(items[..|items| - 1], path) + if last.path == path then last.bytes else []
  }

  /** Only items of these sources were added, behind all that was there. */
  predicate Appends(before: seq<Item>, after: seq<Item>, paths: set<string>) {
    before <= after && forall i :: |before| <= i < |after| ==> after[i].path in paths
  }

  lemma {:induction false} SentOneMore(items: seq<Item>, item: Item)
    ensures Sent(items + [item], item.path) == Sent(items, item.path) + item.bytes
    ensures Appends(items, items + [item], {item.path})
  {
    assert (items + [item])[..|items|] == items;
  }

  lemma {:induction false} SentElsewhere(before: seq<Item>, after: seq<Item>, paths: set<string>, path: string)
    requires Appends(before, after, paths) && path !in paths
    ensures Sent(after, path) == Sent(before, path)
    decreases |after|
  {
    if |before| == |after| {
      assert before == after;
    } else {
      SentElsewhere(before, after[..|after| - 1], paths, path);
      assert after[|after| - 1].path != path;
      assert Sent(after, path) == Sent(after[..|after| - 1], path) + [];
    }
  }

  class Queue {
    var items: seq<Item>
    /** Whether each coming attempt finds the queue full. */
    var fulls: seq<bool>

    constructor (fulls: seq<bool>)
      ensures items == [] && this.fulls == fulls
    {
      items, this.fulls := [], fulls;
    }

    method TrySend(item: Item) returns (refused: bool)
      modifies this
      ensures items == if refused then old(items) else old(items) + [item]
      ensures |fulls| + (if refused then 1 else 0) <= |old(fulls)|
    {
      refused := fulls != [] && fulls[0];
      fulls := if fulls == [] then [] else fulls[1..];
      if !refused { items := items + [item]; }
    }
  }

  // ---- Sources ----

  /** How an unfinished line goes out in the end. */
  function Ended(tag: Bytes, rest: Bytes): Bytes {
    if rest == [] then [] else tag + rest + [NEWLINE]
  }

  /** Conservation: what was sent, then what is pending, is what was read so far
      renders to: as it is, or labelled and up to its unfinished line. */
  ghost predicate Conserves(
    tag: Option<Bytes>, seen: Bytes, chunks: seq<Bytes>, sent: Bytes, pending: Bytes, partial: Bytes, ending: Bytes)
  {
    && Joined(chunks, |chunks|) == seen
    && (tag.None? ==> partial == [] && ending == [] && sent + pending == seen)
    && (tag.Some? ==>
          var d := Chunked(tag.value, chunks, |chunks|);
          && Unfinished(partial) && (ending == [] || partial == [])
          && sent + pending == d.out + Ended(tag.value, ending) && d.rest == partial + ending)
  }

  lemma {:induction false} ChunkRead(tag: Bytes, chunks: seq<Bytes>, bytes: Bytes)
    ensures Joined(chunks + [bytes], |chunks| + 1) == Joined(chunks, |chunks|) + bytes
    ensures var d := Chunked(tag, chunks, |chunks|);
      Chunked(tag, chunks + [bytes], |chunks| + 1) == Behind(d.out, Deliver(tag, d.rest + bytes))
  {
    ChunkedPrefix(tag, chunks, bytes, |chunks|);
  }

  /** One more chunk: what it renders is sent or pending behind all before it. */
  lemma {:induction false} ConservesOn(
    tag: Option<Bytes>, seen: Bytes, chunks: seq<Bytes>, sent: Bytes, partial: Bytes,
    bytes: Bytes, rendered: Bytes, left: Bytes, later: Bytes, pending: Bytes)
    requires Conserves(tag, seen, chunks, sent, [], partial, []) && later + pending == sent + rendered
    requires tag.None? ==> rendered == bytes && left == partial
    requires tag.Some? ==> Delivered(rendered, left) == Deliver(tag.value, partial + bytes) && Unfinished(left)
    ensures Conserves(tag, seen + bytes, chunks + [bytes], later, pending, left, [])
  {
    hide Chunked, Joined, Deliver;
    var prefix := if tag.Some? then tag.value else [];
    ChunkRead(prefix, chunks, bytes);
    assert sent + [] == sent && partial + [] == partial && left + [] == left;
    var d := Chunked(prefix, chunks, |chunks|);
    assert d.out + [] == d.out && (d.out + rendered) + [] == d.out + rendered;
  }

  /** Flushing: the unfinished line goes behind what is pending. */
  lemma {:induction false} ConservesFlushed(
    tag: Bytes, seen: Bytes, chunks: seq<Bytes>, sent: Bytes, pending: Bytes, partial: Bytes, later: Bytes, rest: Bytes)
    requires Conserves(Some(tag), seen, chunks, sent, pending, partial, []) && partial != []
    requires later + rest == sent + (pending + (tag + partial + [NEWLINE]))
    ensures Conserves(Some(tag), seen, chunks, later, rest, [], partial)
  {
    var d := Chunked(tag, chunks, |chunks|);
    assert partial + [] == partial == [] + partial && d.out + [] == d.out;
    Reassociated(sent, pending, tag + partial + [NEWLINE]);
  }

  datatype ReadTurn = Got(count: nat) | Interrupted | Fails

  class Tail {
    const path: string
    const tag: Option<Bytes>
    const stream: Stream
    /** What the file holds, whether it is open, and how far it was read. */
    var content: Bytes
    var isOpen: bool
    var offset: nat
    var partial: Bytes
    var blocked: Option<Bytes>
    var issue: bool
    var opens: seq<bool>
    var turns: seq<ReadTurn>
    /** What the reads brought, one by one, and the unfinished line flushed at the end. */
    ghost var chunks: seq<Bytes>
    ghost var ending: Bytes

    constructor (
        path: string, tag: Option<Bytes>, stream: Stream, content: Bytes, opens: seq<bool>,
        turns: seq<ReadTurn>)
      requires tag.Some? ==> stream == Stderr
      ensures this.path == path && this.tag == tag && this.stream == stream && this.content == content
      ensures Fits([]) && offset == 0 && blocked == None && ending == []
    {
      this.path, this.tag, this.stream, this.content := path, tag, stream, content;
      this.opens, this.turns := opens, turns;
      isOpen, offset, partial, blocked, issue, chunks, ending := false, 0, [], None, false, [], [];
    }

    function Pending(): Bytes
      reads this
    {
      match blocked case None => [] case Some(bytes) => bytes
    }

    ghost predicate Fits(sent: Bytes)
      reads this
    {
      && offset <= |content| && (tag.Some? ==> stream == Stderr)
      && Conserves(tag, content[..offset], chunks, sent, Pending(), partial, ending)
    }

    /** What the queue holds of this source fits. */
    ghost predicate Valid(queue: Queue)
      reads this, queue
    {
      Fits(Sent(queue.items, path))
    }

    /** No read fails, and the file is or can be opened. */
    predicate Healthy()
      reads this
    {
      !issue && Fails !in turns && (isOpen || (opens != [] && opens[0]))
    }

    /** What is left to do: to read and hand over, or only to hand over. */
    ghost function Work(): nat
      reads this
    {
      (if offset < |content| then 2 * (|content| - offset) else 0) + if blocked.Some? then 1 else 0
    }

    /** The file grows behind the reader. */
    method Grow(more: Bytes, ghost queue: Queue)
      requires Valid(queue)
      modifies this`content
      ensures Valid(queue) && content == old(content) + more && Healthy() == old(Healthy())
    {
      assert (content + more)[..offset] == content[..offset];
      content := content + more;
    }

    /** Bytes to the queue, or back into `blocked`. */
    method Offer(bytes: Bytes, queue: Queue)
      requires blocked.None?
      modifies this`blocked, queue
      ensures Appends(old(queue.items), queue.items, {path})
      ensures Sent(queue.items, path) + Pending() == Sent(old(queue.items), path) + bytes
      ensures blocked.Some? ==> blocked == Some(bytes) && queue.items == old(queue.items)
      ensures |queue.fulls| + (if blocked.Some? then 1 else 0) <= |old(queue.fulls)|
    {
      SentOneMore(queue.items, Item(path, bytes));
      var refused := queue.TrySend(Item(path, bytes));
      if refused { blocked := Some(bytes); }
      assert Sent(queue.items, path) + [] == Sent(queue.items, path);
    }

    /** Offering, unless there is nothing. */
    method HandOver(bytes: Bytes, queue: Queue)
      requires blocked.None?
      modifies this`blocked, queue
      ensures Appends(old(queue.items), queue.items, {path})
      ensures Sent(queue.items, path) + Pending() == Sent(old(queue.items), path) + bytes
      ensures |queue.fulls| + (if blocked.Some? then 1 else 0) <= |old(queue.fulls)|
    {
      if bytes != [] { Offer(bytes, queue); }
    }

    method Retry(queue: Queue) returns (moved: nat)
      requires Valid(queue)
      modifies this`blocked, queue
      ensures Valid(queue) && Appends(old(queue.items), queue.items, {path})
      ensures blocked.None? || (blocked == old(blocked) && moved == 0)
      ensures Work() + |queue.fulls| + (if moved > 0 || blocked.Some? then 1 else 0) <= old(Work() + |queue.fulls|)
    {
      if blocked.None? { return 0; }
      var bytes := blocked.value;
      blocked := None;
      Offer(bytes, queue);
      moved := if blocked.Some? then 0 else |bytes|;
    }

    /** Bytes just read go on: raw as they are, labelled line by line. */
    method DeliverBytes(bytes: Bytes, queue: Queue)
      requires Valid(queue) && blocked.None? && ending == []
      requires 0 < |bytes| && offset + |bytes| <= |content| && bytes == content[offset..offset + |bytes|]
      modifies this`partial, this`blocked, this`chunks, this`offset, queue
      ensures Valid(queue) && Appends(old(queue.items), queue.items, {path})
      ensures offset == old(offset) + |bytes| && chunks == old(chunks) + [bytes]
      ensures Work() + |queue.fulls| < old(Work() + |queue.fulls|)
    {
      hide Conserves, Sent;
      ghost var seen, sent, before, was := content[..offset], Sent(queue.items, path), partial, chunks;
      assert content[..offset + |bytes|] == seen + bytes;
      var rendered := bytes;
      if tag.Some? { rendered, partial := RenderLines(tag.value, partial + bytes); }
      assert sent + [] + [] == sent;
      HandOver(rendered, queue);
      ConservesOn(tag, seen, was, sent, before, bytes, rendered, partial, Sent(queue.items, path), Pending());
      offset, chunks := offset + |bytes|, chunks + [bytes];
    }

    /** Opening the file, as long as that has not succeeded. */
    method TryOpen(ghost queue: Queue)
      requires Valid(queue)
      modifies this`isOpen, this`opens
      ensures Valid(queue) && (old(isOpen) ==> isOpen) && (old(Healthy()) ==> Healthy() && isOpen)
    {
      if isOpen { return; }
      isOpen := opens != [] && opens[0];
      opens := if opens == [] then [] else opens[1..];
    }

    /** At the last drain a source that cannot be opened is an issue. */
    method RequireOpen(ghost queue: Queue)
      requires Valid(queue)
      modifies this`isOpen, this`opens, this`issue
      ensures Valid(queue) && (isOpen || issue) && (old(isOpen) ==> isOpen) && (old(issue) ==> issue)
      ensures old(Healthy()) ==> Healthy()
    {
      if !isOpen && !issue {
        TryOpen(queue);
        issue := !isOpen;
      }
    }

    method ReadSome(most: nat, ghost queue: Queue) returns (r: Option<Bytes>)
      requires Valid(queue) && most > 0
      modifies this`turns, this`issue
      ensures r.Some? ==> |r.value| <= most && offset + |r.value| <= |content| && issue == old(issue)
      ensures r.Some? ==> r.value == content[offset..offset + |r.value|] && (r.value == [] ==> offset == |content|)
      ensures r.None? ==> |turns| < |old(turns)| && (old(issue) ==> issue)
      ensures Valid(queue) && (old(Healthy()) ==> Healthy())
    {
      var turn := if turns == [] then Got(most) else turns[0];
      if turns != [] { turns := turns[1..]; }
      match turn
      case Interrupted => return None;
      case Fails =>
        issue := true;
        return None;
      case Got(count) =>
        var left := |content| - offset;
        var n := if count == 0 then 1 else count;
        n := if n > most then most else n;
        n := if n > left then left else n;
        return Some(content[offset..offset + n]);
    }

    /** Reading until the budget is spent, the queue refuses, the file ends or fails. */
    method ReadOn(queue: Queue, already: nat) returns (moved: nat)
      requires Valid(queue) && isOpen && blocked.None? && !issue && ending == []
      modifies this, queue
      ensures Valid(queue) && Appends(old(queue.items), queue.items, {path})
      ensures content == old(content) && old(offset) <= offset && isOpen && ending == []
      ensures moved >= already && (old(Healthy()) ==> Healthy())
      ensures moved == 0 && blocked.None? && !issue ==> offset == |content|
      ensures Work() + |queue.fulls| + (if moved > already || blocked.Some? then 1 else 0) <=
        old(Work() + |queue.fulls|)
    {
      hide Fits, Sent;
      moved := already;
      var budget := SOURCE_BUDGET;
      while budget > 0 && blocked.None? && !issue
        invariant budget <= SOURCE_BUDGET && Valid(queue) && Appends(old(queue.items), queue.items, {path})
        invariant content == old(content) && isOpen && ending == [] && old(offset) <= offset && moved >= already
        invariant budget < SOURCE_BUDGET ==> moved > already
        invariant old(Healthy()) ==> Healthy()
        invariant Work() + |queue.fulls| + (if moved > already || blocked.Some? then 1 else 0) <=
          old(Work() + |queue.fulls|)
        decreases budget, |turns|
      {
        var read := ReadSome(if CHUNK < budget then CHUNK else budget, queue);
        if read.Some? {
          if read.value == [] { return; }
          DeliverBytes(read.value, queue);
          budget, moved := budget - |read.value|, moved + |read.value|;
        }
      }
    }

    /** A source's turn: what the queue refused first, then up to its budget. */
    method Pump(queue: Queue) returns (moved: nat)
      requires Valid(queue) && ending == []
      modifies this, queue
      ensures Valid(queue) && Appends(old(queue.items), queue.items, {path})
      ensures content == old(content) && old(offset) <= offset && ending == []
      ensures (old(isOpen) ==> isOpen) && (old(issue) ==> issue) && (old(Healthy()) ==> Healthy())
      ensures moved == 0 && blocked.None? && !issue && isOpen ==> offset == |content|
      ensures Work() + |queue.fulls| + (if moved > 0 || blocked.Some? then 1 else 0) <= old(Work() + |queue.fulls|)
    {
      hide Fits, Sent;
      moved := Retry(queue);
      if blocked.Some? || issue { return; }
      TryOpen(queue);
      if isOpen { moved := ReadOn(queue, moved); }
    }

    /** Before the seal: a turn each time the file has grown by more bytes. */
    method Follow(growth: seq<Bytes>, queue: Queue)
      requires Valid(queue) && ending == []
      modifies this, queue
      ensures Valid(queue) && Appends(old(queue.items), queue.items, {path}) && ending == []
      ensures content == old(content) + Joined(growth, |growth|) && old(offset) <= offset
      ensures old(issue) ==> issue
      ensures old(Healthy()) ==> Healthy()
    {
      assert content + [] == content;
      hide Fits, Sent;
      for i := 0 to |growth|
        invariant Valid(queue) && Appends(old(queue.items), queue.items, {path}) && ending == []
        invariant content == old(content) + Joined(growth, i) && old(offset) <= offset
        invariant (old(issue) ==> issue) && (old(Healthy()) ==> Healthy())
      {
        assert old(content) + Joined(growth, i) + growth[i] == old(content) + Joined(growth, i + 1);
        Grow(growth[i], queue);
        var moved := Pump(queue);
      }
    }

    /** The unfinished line goes out last, behind anything still refused. */
    method FlushPartial(queue: Queue)
      requires Valid(queue) && ending == []
      modifies this`partial, this`blocked, this`ending, queue
      ensures Valid(queue) && Appends(old(queue.items), queue.items, {path})
      ensures partial == [] && ending == old(partial)
    {
      hide Sent, Chunked, Joined;
      if tag.None? || partial == [] { return; }
      var rendered := tag.value + partial + [NEWLINE];
      ghost var sent, pending, before := Sent(queue.items, path), Pending(), partial;
      ending, partial := partial, [];
      match blocked {
        case Some(bytes) => blocked := Some(bytes + rendered);
        case None =>
          assert [] + rendered == rendered;
          Offer(rendered, queue);
      }
      ConservesFlushed(tag.value, content[..offset], chunks, sent, pending, before, Sent(queue.items, path), Pending());
    }
  }

  /** Before the flush: what the queue accepted of a labelled source, then what is
      blocked, and the unfinished line account for all that was read; with short
      lines they are the rendering of the whole. */
  lemma {:induction false} RenderingSoFar(t: Tail, queue: Queue)
    requires t.Valid(queue) && t.tag.Some? && t.ending == []
    ensures var seen, d := t.content[..t.offset], Delivered(Sent(queue.items, t.path) + t.Pending(), t.partial);
      && Accounts(t.tag.value, seen, ChunkedPieces(t.tag.value, t.chunks, |t.chunks|), d)
      && (ShortLines(seen) ==> d == Deliver(t.tag.value, seen))
  {
    var tag, n := t.tag.value, |t.chunks|;
    var d := Chunked(tag, t.chunks, n);
    assert d.out + [] == d.out && t.partial + [] == t.partial;
    ChunkedConserves(tag, t.chunks, n);
    if ShortLines(t.content[..t.offset]) { ChunkedIsWhole(tag, t.chunks, n); }
  }

  // ---- All sources ----

  ghost predicate Distinct(tails: seq<Tail>) {
    forall i, j :: 0 <= i < j < |tails| ==> tails[i].path != tails[j].path
  }

  function QueueOf(t: Tail, out: Queue, err: Queue): Queue {
    if t.stream == Stdout then out else err
  }

  function Paths(tails: seq<Tail>): set<string> {
    set t <- tails :: t.path
  }

  ghost predicate AllValid(tails: seq<Tail>, out: Queue, err: Queue)
    reads tails, out, err
  {
    forall i :: 0 <= i < |tails| ==> tails[i].Valid(QueueOf(tails[i], out, err))
  }

  ghost function Works(tails: seq<Tail>): (r: seq<nat>)
    reads tails
    ensures |r| == |tails| && forall i :: 0 <= i < |tails| ==> r[i] == tails[i].Work()
  {
    if tails == [] then [] else Works(tails[..|tails| - 1]) + [tails[|tails| - 1].Work()]
  }

  function Sum(s: seq<nat>): nat {
    if s == [] then 0 else Sum(s[..|s| - 1]) + s[|s| - 1]
  }

  lemma {:induction false} SumUpdate(s: seq<nat>, i: nat, n: nat)
    requires i < |s|
    ensures Sum(s[i := n]) + s[i] == Sum(s) + n
    decreases |s|
  {
    var last := |s| - 1;
    if i < last {
      SumUpdate(s[..last], i, n);
      assert s[i := n][..last] == s[..last][i := n];
    } else {
      assert s[i := n][..last] == s[..last];
    }
  }

  /** What is left to do for all sources, refusals still to come included. */
  ghost function Load(tails: seq<Tail>, out: Queue, err: Queue): nat
    reads tails, out, err
  {
    Sum(Works(tails)) + |out.fulls| + |err.fulls|
  }

  /** A source's turn, which added items of its own to its queue only, keeps
      every other source's account. */
  lemma {:induction false} OthersKeep(
    tails: seq<Tail>, i: nat, out: Queue, err: Queue, outBefore: seq<Item>, errBefore: seq<Item>)
    requires Distinct(tails) && i < |tails| && tails[i].Valid(QueueOf(tails[i], out, err))
    requires forall j :: 0 <= j < |tails| && j != i ==>
      tails[j].Fits(Sent(if tails[j].stream == Stdout then outBefore else errBefore, tails[j].path))
    requires Appends(outBefore, out.items, if tails[i].stream == Stdout then {tails[i].path} else {})
    requires Appends(errBefore, err.items, if tails[i].stream == Stdout then {} else {tails[i].path})
    ensures AllValid(tails, out, err)
    ensures Appends(outBefore, out.items, Paths(tails)) && Appends(errBefore, err.items, Paths(tails))
  {
    forall j | 0 <= j < |tails| && j != i ensures tails[j].Valid(QueueOf(tails[j], out, err)) {
      if tails[j].stream == Stdout {
        SentElsewhere(outBefore, out.items, if tails[i].stream == Stdout then {tails[i].path} else {}, tails[j].path);
      } else {
        SentElsewhere(errBefore, err.items, if tails[i].stream == Stdout then {} else {tails[i].path}, tails[j].path);
      }
    }
    assert tails[i] in tails && tails[i].path in Paths(tails);
  }

  lemma {:induction false} OneWorkChanged(tails: seq<Tail>, i: nat, before: seq<nat>)
    requires |before| == |tails| && i < |tails|
    requires forall j :: 0 <= j < |tails| && j != i ==> tails[j].Work() == before[j]
    ensures Sum(Works(tails)) + before[i] == Sum(before) + tails[i].Work()
  {
    SumUpdate(before, i, tails[i].Work());
    assert Works(tails) == before[i := tails[i].Work()];
  }

  // ---- The last drain ----

  /** Nothing more to read, or a recorded reason why not. */
  ghost predicate AtEnd(t: Tail)
    reads t
  {
    t.issue || t.offset == |t.content|
  }

  /** What a whole source comes to, read in these chunks. */
  ghost function Outcome(tag: Option<Bytes>, chunks: seq<Bytes>): Bytes {
    match tag
    case None => Joined(chunks, |chunks|)
    case Some(prefix) =>
      var d := Chunked(prefix, chunks, |chunks|);
      d.out + Ended(prefix, d.rest)
  }

  /** Every byte of the source is in its queue, once and in order. */
  ghost predicate FullyDelivered(t: Tail, queue: Queue)
    reads t, queue
  {
    Joined(t.chunks, |t.chunks|) == t.content && Sent(queue.items, t.path) == Outcome(t.tag, t.chunks)
  }

  /** A labelled source comes to well-cut pieces that spell the whole file, its
      unfinished line last; with short lines, to the rendering of the whole file. */
  lemma {:induction false} OutcomeConserves(tag: Bytes, chunks: seq<Bytes>)
    ensures var all, d := Joined(chunks, |chunks|), Chunked(tag, chunks, |chunks|);
      && Outcome(Some(tag), chunks) == d.out + Ended(tag, d.rest)
      && Accounts(tag, all, ChunkedPieces(tag, chunks, |chunks|), d)
      && (ShortLines(all) ==> d == Deliver(tag, all))
  {
    ChunkedConserves(tag, chunks, |chunks|);
    if ShortLines(Joined(chunks, |chunks|)) { ChunkedIsWhole(tag, chunks, |chunks|); }
  }

  lemma {:induction false} NothingPending(t: Tail, queue: Queue)
    requires t.Valid(queue) && t.blocked.None? && t.partial == [] && t.offset == |t.content|
    ensures FullyDelivered(t, queue)
  {
    var sent := Sent(queue.items, t.path);
    assert t.content[..t.offset] == t.content && sent + [] == sent && [] + t.ending == t.ending;
  }

  /** What one pass over all sources leaves alone. */
  twostate predicate SameSources(tails: seq<Tail>)
    reads tails
  {
    forall i :: 0 <= i < |tails| ==>
      && tails[i].content == old(tails[i].content) && (old(tails[i].issue) ==> tails[i].issue)
      && (old(tails[i].isOpen) ==> tails[i].isOpen) && (old(tails[i].Healthy()) ==> tails[i].Healthy())
  }

  /** What every pass keeps: accounts, sources, and the order of the queues. */
  twostate predicate Passed(tails: seq<Tail>, out: Queue, err: Queue)
    reads tails, out, err
  {
    && AllValid(tails, out, err) && SameSources(tails)
    && Appends(old(out.items), out.items, Paths(tails)) && Appends(old(err.items), err.items, Paths(tails))
  }

  /** One source's turn among all. */
  method PumpOne(tails: seq<Tail>, i: nat, out: Queue, err: Queue) returns (moved: nat)
    requires Distinct(tails) && i < |tails| && out != err && AllValid(tails, out, err) && tails[i].ending == []
    modifies tails[i], QueueOf(tails[i], out, err)
    ensures Passed(tails, out, err) && tails[i].ending == []
    ensures moved == 0 && tails[i].isOpen ==> tails[i].blocked.Some? || AtEnd(tails[i])
    ensures Load(tails, out, err) + (if moved > 0 || tails[i].blocked.Some? then 1 else 0) <= old(Load(tails, out, err))
  {
    hide Tail.Fits, Tail.Healthy, Sent, Sum, Works;
    ghost var outBefore, errBefore, works := out.items, err.items, Works(tails);
    moved := tails[i].Pump(QueueOf(tails[i], out, err));
    OthersKeep(tails, i, out, err, outBefore, errBefore);
    OneWorkChanged(tails, i, works);
  }

  method PumpAll(tails: seq<Tail>, out: Queue, err: Queue) returns (moved: nat, waiting: bool)
    requires Distinct(tails) && out != err && AllValid(tails, out, err)
    requires forall i :: 0 <= i < |tails| ==> tails[i].ending == [] && (tails[i].isOpen || tails[i].issue)
    modifies tails, out, err
    ensures Passed(tails, out, err)
    ensures forall i :: 0 <= i < |tails| ==> tails[i].ending == []
    ensures moved == 0 && !waiting ==> forall i :: 0 <= i < |tails| ==> AtEnd(tails[i]) && tails[i].blocked.None?
    ensures Load(tails, out, err) + (if moved > 0 || waiting then 1 else 0) <= old(Load(tails, out, err))
  {
    hide Tail.Fits, Tail.Valid, Tail.Healthy, Load, Paths;
    moved := 0;
    ghost var busy := false;
    for i := 0 to |tails|
      invariant Passed(tails, out, err) && forall j :: 0 <= j < |tails| ==> tails[j].ending == []
      invariant moved == 0 ==> forall j :: 0 <= j < i ==> tails[j].blocked.Some? || AtEnd(tails[j])
      invariant Load(tails, out, err) + (if busy then 1 else 0) <= old(Load(tails, out, err))
      invariant (moved > 0 ==> busy) && forall j :: 0 <= j < i && tails[j].blocked.Some? ==> busy
    {
      var here := PumpOne(tails, i, out, err);
      moved, busy := moved + here, busy || here > 0 || tails[i].blocked.Some?;
    }
    waiting := exists t <- tails :: t.blocked.Some?;
  }

  method FlushOne(tails: seq<Tail>, i: nat, out: Queue, err: Queue)
    requires Distinct(tails) && i < |tails| && out != err && AllValid(tails, out, err) && tails[i].ending == []
    modifies tails[i], QueueOf(tails[i], out, err)
    ensures Passed(tails, out, err) && tails[i].partial == [] && (old(AtEnd(tails[i])) ==> AtEnd(tails[i]))
  {
    hide Tail.Fits, Sent;
    ghost var outBefore, errBefore := out.items, err.items;
    tails[i].FlushPartial(QueueOf(tails[i], out, err));
    OthersKeep(tails, i, out, err, outBefore, errBefore);
  }

  method FlushAll(tails: seq<Tail>, out: Queue, err: Queue)
    requires Distinct(tails) && out != err && AllValid(tails, out, err)
    requires forall i :: 0 <= i < |tails| ==> AtEnd(tails[i]) && tails[i].ending == []
    modifies tails, out, err
    ensures Passed(tails, out, err)
    ensures forall i :: 0 <= i < |tails| ==> AtEnd(tails[i]) && tails[i].partial == []
  {
    hide Tail.Fits, Tail.Valid, Tail.Healthy, Load, Paths;
    for i := 0 to |tails|
      invariant Passed(tails, out, err) && forall j :: 0 <= j < |tails| ==> AtEnd(tails[j])
      invariant forall j :: 0 <= j < i ==> tails[j].partial == []
      invariant forall j :: i <= j < |tails| ==> tails[j].ending == []
    {
      FlushOne(tails, i, out, err);
    }
  }

  method RetryOne(tails: seq<Tail>, i: nat, out: Queue, err: Queue)
    requires Distinct(tails) && i < |tails| && out != err && AllValid(tails, out, err)
    modifies tails[i], QueueOf(tails[i], out, err)
    ensures Passed(tails, out, err) && tails[i].partial == old(tails[i].partial)
    ensures (old(AtEnd(tails[i])) ==> AtEnd(tails[i]))
    ensures Load(tails, out, err) + (if tails[i].blocked.Some? then 1 else 0) <= old(Load(tails, out, err))
  {
    hide Tail.Fits, Sent, Sum, Works;
    ghost var outBefore, errBefore, works := out.items, err.items, Works(tails);
    var moved := tails[i].Retry(QueueOf(tails[i], out, err));
    OthersKeep(tails, i, out, err, outBefore, errBefore);
    OneWorkChanged(tails, i, works);
  }

  method RetryAll(tails: seq<Tail>, out: Queue, err: Queue) returns (waiting: bool)
    requires Distinct(tails) && out != err && AllValid(tails, out, err)
    requires forall i :: 0 <= i < |tails| ==> AtEnd(tails[i]) && tails[i].partial == []
    modifies tails, out, err
    ensures Passed(tails, out, err)
    ensures forall i :: 0 <= i < |tails| ==> AtEnd(tails[i]) && tails[i].partial == []
    ensures waiting <==> exists i :: 0 <= i < |tails| && tails[i].blocked.Some?
    ensures Load(tails, out, err) + (if waiting then 1 else 0) <= old(Load(tails, out, err))
  {
    hide Tail.Fits, Tail.Valid, Tail.Healthy, Load, Paths;
    ghost var busy := false;
    for i := 0 to |tails|
      invariant Passed(tails, out, err)
      invariant forall j :: 0 <= j < |tails| ==> AtEnd(tails[j]) && tails[j].partial == []
      invariant Load(tails, out, err) + (if busy then 1 else 0) <= old(Load(tails, out, err))
      invariant forall j :: 0 <= j < i && tails[j].blocked.Some? ==> busy
    {
      RetryOne(tails, i, out, err);
      busy := busy || tails[i].blocked.Some?;
    }
    waiting := exists t <- tails :: t.blocked.Some?;
  }

  method RequireAllOpen(tails: seq<Tail>, out: Queue, err: Queue)
    requires Distinct(tails) && AllValid(tails, out, err)
    requires forall i :: 0 <= i < |tails| ==> tails[i].ending == []
    modifies tails
    ensures Passed(tails, out, err)
    ensures forall i :: 0 <= i < |tails| ==> tails[i].ending == [] && (tails[i].isOpen || tails[i].issue)
  {
    hide Tail.Fits, Tail.Valid, Tail.Healthy, Load, Paths;
    for i := 0 to |tails|
      invariant AllValid(tails, out, err) && SameSources(tails)
      invariant forall j :: 0 <= j < |tails| ==> tails[j].ending == []
      invariant forall j :: 0 <= j < i ==> tails[j].isOpen || tails[j].issue
    {
      tails[i].RequireOpen(QueueOf(tails[i], out, err));
    }
  }

  /** Pumping until nothing moves and nothing waits. */
  method PumpToEnd(tails: seq<Tail>, out: Queue, err: Queue)
    requires Distinct(tails) && out != err && AllValid(tails, out, err)
    requires forall i :: 0 <= i < |tails| ==> tails[i].ending == [] && (tails[i].isOpen || tails[i].issue)
    modifies tails, out, err
    ensures Passed(tails, out, err)
    ensures forall i :: 0 <= i < |tails| ==> tails[i].ending == [] && AtEnd(tails[i])
  {
    hide Tail.Valid, Tail.Healthy, Load, Paths;
    var busy := true;
    while busy
      invariant Passed(tails, out, err)
      invariant forall j :: 0 <= j < |tails| ==> tails[j].ending == [] && (tails[j].isOpen || tails[j].issue)
      invariant !busy ==> forall j :: 0 <= j < |tails| ==> AtEnd(tails[j])
      decreases Load(tails, out, err), busy
    {
      var moved, waiting := PumpAll(tails, out, err);
      busy := moved > 0 || waiting;
    }
  }

  /** Retrying until nothing waits. */
  method RetryToEnd(tails: seq<Tail>, out: Queue, err: Queue)
    requires Distinct(tails) && out != err && AllValid(tails, out, err)
    requires forall i :: 0 <= i < |tails| ==> AtEnd(tails[i]) && tails[i].partial == []
    modifies tails, out, err
    ensures Passed(tails, out, err)
    ensures forall i :: 0 <= i < |tails| ==> AtEnd(tails[i]) && tails[i].partial == [] && tails[i].blocked.None?
  {
    hide Tail.Valid, Tail.Healthy, Load, Paths;
    var waiting := exists t <- tails :: t.blocked.Some?;
    while waiting
      invariant Passed(tails, out, err)
      invariant forall j :: 0 <= j < |tails| ==> AtEnd(tails[j]) && tails[j].partial == []
      invariant waiting <==> exists j :: 0 <= j < |tails| && tails[j].blocked.Some?
      decreases Load(tails, out, err), waiting
    {
      waiting := RetryAll(tails, out, err);
    }
  }

  lemma {:induction false} AllDelivered(tails: seq<Tail>, out: Queue, err: Queue)
    requires AllValid(tails, out, err)
    requires forall i :: 0 <= i < |tails| ==> AtEnd(tails[i]) && tails[i].partial == [] && tails[i].blocked.None?
    ensures forall i :: 0 <= i < |tails| && !tails[i].issue ==> FullyDelivered(tails[i], QueueOf(tails[i], out, err))
    ensures forall i :: 0 <= i < |tails| && tails[i].Healthy() ==> !tails[i].issue
  {
    hide Tail.Fits, FullyDelivered;
    forall i | 0 <= i < |tails| && !tails[i].issue ensures FullyDelivered(tails[i], QueueOf(tails[i], out, err)) {
      NothingPending(tails[i], QueueOf(tails[i], out, err));
    }
  }

  /** The drain of a sealed run. When the queues refuse only so often it ends,
      and every source without an issue is in its queue, every byte, once; an
      issue comes from a source that cannot be opened or read. */
  method Drain(tails: seq<Tail>, out: Queue, err: Queue)
    requires Distinct(tails) && out != err && AllValid(tails, out, err)
    requires forall i :: 0 <= i < |tails| ==> tails[i].ending == []
    modifies tails, out, err
    ensures Passed(tails, out, err)
    ensures forall i :: 0 <= i < |tails| ==> tails[i].blocked.None? && tails[i].partial == []
    ensures forall i :: 0 <= i < |tails| && !tails[i].issue ==> FullyDelivered(tails[i], QueueOf(tails[i], out, err))
    ensures forall i :: 0 <= i < |tails| && old(tails[i].Healthy()) ==> !tails[i].issue
  {
    hide Tail.Valid, Tail.Healthy, FullyDelivered, Paths, AllValid, AtEnd, QueueOf, Load;
    RequireAllOpen(tails, out, err);
    PumpToEnd(tails, out, err);
    FlushAll(tails, out, err);
    RetryToEnd(tails, out, err);
    AllDelivered(tails, out, err);
  }
}
