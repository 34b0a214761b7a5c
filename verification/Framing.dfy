/** One framed message over a channel that delivers bytes as it likes
    (channel.rs): a four-byte magic, a big-endian length, the body. */
module Framing {
  import opened Wrappers
  import opened ByteStrings

  const HEADER := 8

  /** Every channel's bound fits the length field. */
  datatype Protocol = Protocol(magic: Bytes, max: nat) {
    predicate Valid() {
      |magic| == 4 && max < 0x1_0000_0000
    }
  }

  datatype IoError = InvalidData | UnexpectedEof | WriteZero | TimedOut | Failed

  // ---- The length field ----

  function ToBigEndian(n: nat): (r: Bytes)
    requires n < 0x1_0000_0000
    ensures |r| == 4
  {
    [(n / 0x100_0000) as byte, (n / 0x1_0000 % 0x100) as byte, (n / 0x100 % 0x100) as byte, (n % 0x100) as byte]
  }

  function FromBigEndian(b: Bytes): nat
    requires |b| == 4
  {
    b[0] as nat * 0x100_0000 + b[1] as nat * 0x1_0000 + b[2] as nat * 0x100 + b[3] as nat
  }

  lemma {:induction false} BigEndianRoundTrip(n: nat)
    requires n < 0x1_0000_0000
    ensures FromBigEndian(ToBigEndian(n)) == n
    ensures var b := ToBigEndian(n);
      n == ((b[0] as nat * 0x100 + b[1] as nat) * 0x100 + b[2] as nat) * 0x100 + b[3] as nat
  {
    var a, b, c, d := n / 0x100_0000, n / 0x1_0000 % 0x100, n / 0x100 % 0x100, n % 0x100;
    assert n / 0x1_0000 == a * 0x100 + b;
    assert n / 0x100 == (n / 0x1_0000) * 0x100 + c;
    assert n == (n / 0x100) * 0x100 + d;
  }

  // ---- Frames ----

  function Encode(p: Protocol, body: Bytes): Result<Bytes, IoError>
    requires p.Valid()
  {
    if body == [] || |body| > p.max then Err(InvalidData) else Ok(p.magic + ToBigEndian(|body|) + body)
  }

  /** Every nonempty body up to the bound has a frame: magic, length, body. */
  lemma {:induction false} EncodesUpToBound(p: Protocol, body: Bytes)
    requires p.Valid()
    ensures Encode(p, body).Ok? <==> 0 < |body| <= p.max
    ensures Encode(p, body).Ok? ==>
      Encode(p, body).value == p.magic + ToBigEndian(|body|) + body && |Encode(p, body).value| == HEADER + |body|
  {
  }

  /** The stream starts with the frame of this body. */
  ghost predicate Frames(p: Protocol, stream: Bytes, body: Bytes)
    requires p.Valid()
  {
    Encode(p, body).Ok? && Encode(p, body).value <= stream
  }

  /** The total length a complete header announces. */
  function Expected(p: Protocol, received: Bytes): (r: Result<Option<nat>, IoError>)
    requires p.Valid()
    ensures r.Ok? && r.value.Some? ==> HEADER < r.value.value <= HEADER + p.max
  {
    if |received| < HEADER then Ok(None)
    else if received[..4] != p.magic then Err(InvalidData)
    else
      var size := FromBigEndian(received[4..HEADER]);
      if size == 0 || size > p.max then Err(InvalidData) else Ok(Some(HEADER + size))
  }

  /** A header announces the frame it belongs to, and one that announces
      nothing belongs to none. */
  lemma {:induction false} HeaderDecides(p: Protocol, stream: Bytes, body: Bytes)
    requires p.Valid() && |stream| >= HEADER
    ensures Frames(p, stream, body) <==>
      && Expected(p, stream).Ok? && Expected(p, stream).value == Some(HEADER + |body|)
      && HEADER + |body| <= |stream| && stream[HEADER..HEADER + |body|] == body
  {
    if Encode(p, body).Ok? {
      BigEndianRoundTrip(|body|);
      var frame := Encode(p, body).value;
      assert frame[..4] == p.magic && frame[4..HEADER] == ToBigEndian(|body|) && frame[HEADER..] == body;
      if frame <= stream {
        assert stream[..4] == frame[..4] && stream[4..HEADER] == frame[4..HEADER];
        assert stream[HEADER..HEADER + |body|] == frame[HEADER..];
      }
      if Expected(p, stream) == Ok(Some(HEADER + |body|)) && HEADER + |body| <= |stream|
        && stream[HEADER..HEADER + |body|] == body
      {
        BigEndianInjective(stream[4..HEADER], ToBigEndian(|body|));
        assert stream[..HEADER + |body|] == stream[..4] + stream[4..HEADER] + stream[HEADER..HEADER + |body|];
      }
    }
  }

  lemma {:induction false} BigEndianInjective(a: Bytes, b: Bytes)
    requires |a| == 4 && |b| == 4 && FromBigEndian(a) == FromBigEndian(b)
    ensures a == b
  {
    assert a[0] == b[0] && a[1] == b[1] && a[2] == b[2] && a[3] == b[3];
  }

  /** A stream starts with at most one frame. */
  lemma {:induction false} FrameUnique(p: Protocol, stream: Bytes, a: Bytes, b: Bytes)
    requires p.Valid() && Frames(p, stream, a) && Frames(p, stream, b)
    ensures a == b
  {
    HeaderDecides(p, stream, a);
    HeaderDecides(p, stream, b);
  }

  lemma {:induction false} ExpectedOfPrefix(p: Protocol, received: Bytes, stream: Bytes)
    requires p.Valid() && received <= stream && |received| >= HEADER
    ensures Expected(p, stream) == Expected(p, received)
  {
    assert stream[..4] == received[..4] && stream[4..HEADER] == received[4..HEADER];
  }

  // ---- A channel delivering bytes as it likes ----

  /** One read or write: some bytes, or none for one of the usual reasons. */
  datatype Turn = Moves(count: nat) | Interrupted | WouldBlock | Breaks

  function Rest(turns: seq<Turn>): seq<Turn> {
    if turns == [] then [] else turns[1..]
  }

  /** How many turns move bytes before one blocks, breaks or is the last. */
  function Ready(turns: seq<Turn>): nat {
    if turns == [] then 0
    else match turns[0]
      case Moves(_) => 1 + Ready(turns[1..])
      case Interrupted => Ready(turns[1..])
      case _ => 0
  }

  class Channel {
    /** What the peer has sent and not been read, all it ever will send. */
    var incoming: Bytes
    var outgoing: Bytes
    var turns: seq<Turn>

    constructor (incoming: Bytes, turns: seq<Turn>)
      ensures this.incoming == incoming && this.turns == turns && outgoing == []
    {
      this.incoming, this.turns, outgoing := incoming, turns, [];
    }

    method NextTurn() returns (t: Turn)
      modifies this`turns
      ensures t == (if old(turns) == [] then WouldBlock else old(turns)[0]) && turns == Rest(old(turns))
    {
      t := WouldBlock;
      if turns != [] { t, turns := turns[0], turns[1..]; }
    }

    /** At most `wanted` bytes; none at the end of the stream. */
    method Read(wanted: nat) returns (r: Result<Bytes, Turn>)
      requires wanted > 0
      modifies this`incoming, this`turns
      ensures turns == Rest(old(turns)) && (r.Ok? || r.error != WouldBlock ==> old(turns) != [])
      ensures r.Ok? ==> |r.value| <= wanted && old(incoming) == r.value + incoming && (r.value == [] ==> incoming == [])
      ensures r.Ok? ==> old(turns)[0].Moves?
      ensures r.Err? ==> incoming == old(incoming) && !r.error.Moves?
      ensures r.Err? ==> r.error == if old(turns) == [] then WouldBlock else old(turns)[0]
    {
      var t := NextTurn();
      if !t.Moves? { return Err(t); }
      var most := if wanted < |incoming| then wanted else |incoming|;
      var n := if t.count == 0 then 1 else t.count;
      if n > most { n := most; }
      r := Ok(incoming[..n]);
      incoming := incoming[n..];
    }

    method Write(bytes: Bytes) returns (r: Result<nat, Turn>)
      modifies this`outgoing, this`turns
      ensures turns == Rest(old(turns)) && (r.Ok? || r.error != WouldBlock ==> old(turns) != [])
      ensures r.Ok? ==> r.value <= |bytes| && outgoing == old(outgoing) + bytes[..r.value]
      ensures r.Ok? ==> old(turns)[0].Moves? && (r.value == 0 ==> bytes == [] || old(turns)[0] == Moves(0))
      ensures r.Err? ==> outgoing == old(outgoing) && !r.error.Moves?
      ensures r.Err? ==> r.error == if old(turns) == [] then WouldBlock else old(turns)[0]
    {
      var t := NextTurn();
      if !t.Moves? { return Err(t); }
      var n := if t.count <= |bytes| then t.count else |bytes|;
      outgoing := outgoing + bytes[..n];
      r := Ok(n);
    }
  }

  /** Writes until everything is taken, which enough turns that take something
      ensure; whatever was taken is a prefix. */
  method WriteAll(channel: Channel, bytes: Bytes) returns (r: Result<(), IoError>)
    modifies channel
    ensures r.Ok? ==> channel.outgoing == old(channel.outgoing) + bytes
    ensures old(channel.outgoing) <= channel.outgoing <= old(channel.outgoing) + bytes
    ensures Moves(0) !in old(channel.turns) && |bytes| <= Ready(old(channel.turns)) ==> r.Ok?
  {
    var left := bytes;
    while left != []
      invariant |left| <= |bytes| && left == bytes[|bytes| - |left|..]
      invariant channel.outgoing == old(channel.outgoing) + bytes[..|bytes| - |left|]
      invariant Moves(0) !in old(channel.turns) && |bytes| <= Ready(old(channel.turns)) ==>
        Moves(0) !in channel.turns && |left| <= Ready(channel.turns)
      decreases |channel.turns|
    {
      var wrote := channel.Write(left);
      match wrote
      case Ok(n) =>
        assert bytes[..|bytes| - |left|] + left[..n] == bytes[..|bytes| - |left| + n];
        if n == 0 { return Err(WriteZero); }
        left := left[n..];
      case Err(Interrupted) =>
      case Err(WouldBlock) =>
        if channel.turns == [] { return Err(TimedOut); }
      case Err(Breaks) => return Err(Failed);
    }
    return Ok(());
  }

  /** What a reader able to reach this many bytes owes: the frame if it lies
      within reach, and a verdict if the longest one would. */
  ghost predicate Settles(p: Protocol, stream: Bytes, reach: nat, r: Result<Option<Bytes>, IoError>)
    requires p.Valid()
  {
    && (forall body :: Frames(p, stream, body) && HEADER + |body| <= reach ==> r == Ok(Some(body)))
    && (HEADER + p.max < reach ==> r != Ok(None) && (r.Err? ==> r.error == InvalidData || r.error == UnexpectedEof))
  }

  lemma {:induction false} FrameSettles(p: Protocol, stream: Bytes, reach: nat, body: Bytes)
    requires p.Valid() && Frames(p, stream, body)
    ensures Settles(p, stream, reach, Ok(Some(body)))
  {
    forall other | Frames(p, stream, other) ensures other == body { FrameUnique(p, stream, other, body); }
  }

  /** While more is wanted than can be reached, nothing is owed. */
  lemma {:induction false} StoppedShort(
    p: Protocol, received: Bytes, stream: Bytes, reach: nat, r: Result<Option<Bytes>, IoError>)
    requires p.Valid() && received <= stream && reach <= |received| && Expected(p, received).Ok?
    requires |received| < if Expected(p, received).value.Some? then Expected(p, received).value.value else HEADER
    ensures Settles(p, stream, reach, r)
  {
    forall body | Frames(p, stream, body) ensures |received| < HEADER + |body| {
      if |received| >= HEADER {
        ExpectedOfPrefix(p, received, stream);
        HeaderDecides(p, stream, body);
      }
    }
  }

  /** A single-use reader of one frame. */
  class FrameReader {
    const protocol: Protocol
    var received: Bytes

    constructor (protocol: Protocol)
      requires protocol.Valid()
      ensures this.protocol == protocol && received == [] && Valid()
    {
      this.protocol, received := protocol, [];
    }

    /** Never more than one frame is buffered. */
    ghost predicate Valid()
      reads this
    {
      && protocol.Valid()
      && (|received| > HEADER ==>
            Expected(protocol, received).Ok? && |received| <= Expected(protocol, received).value.value)
    }

    lemma {:induction false} BufferBounded()
      requires Valid()
      ensures |received| <= HEADER + protocol.max
    {
    }

    /** Reads what it still wants and no byte more. A body comes back only
        when what was received and what follows start with its frame, and the
        stream is then consumed to the end of that frame; the two errors about
        the stream mean it starts with no frame. Conversely a frame comes back
        once its missing bytes have had as many turns, and one turn more than
        the longest frame always settles the matter. */
    method Step(channel: Channel) returns (r: Result<Option<Bytes>, IoError>)
      requires Valid()
      modifies this, channel`incoming, channel`turns
      ensures var stream := old(received) + old(channel.incoming);
        && (r.Ok? && r.value.Some? ==>
              && Frames(protocol, stream, r.value.value)
              && stream == Encode(protocol, r.value.value).value + channel.incoming)
        && (r.Ok? && r.value.None? ==> Valid() && stream == received + channel.incoming)
        && (r.Err? && (r.error == InvalidData || r.error == UnexpectedEof) ==>
              forall body :: !Frames(protocol, stream, body))
        && Settles(protocol, stream, |old(received)| + Ready(old(channel.turns)), r)
      ensures |received| <= HEADER + protocol.max
    {
      ghost var stream, reach := received + channel.incoming, |received| + Ready(channel.turns);
      while true
        invariant Valid() && stream == received + channel.incoming && reach <= |received| + Ready(channel.turns)
        decreases |channel.turns|
      {
        var expected := Expected(protocol, received);
        BufferBounded();
        if |received| >= HEADER { ExpectedOfPrefix(protocol, received, stream); }
        if expected.Err? {
          forall body ensures !Frames(protocol, stream, body) { HeaderDecides(protocol, stream, body); }
          return Err(expected.error);
        }
        if expected.value.Some? && |received| == expected.value.value {
          var body := received[HEADER..];
          FrameComplete(protocol, received, body, channel.incoming);
          FrameSettles(protocol, stream, reach, body);
          received := received[..HEADER];
          return Ok(Some(body));
        }
        var wanted := (if expected.value.Some? then expected.value.value else HEADER) - |received|;
        var read := channel.Read(wanted);
        match read
        case Ok(bytes) =>
          if bytes == [] {
            NoFrameAtEnd(protocol, received);
            assert stream == received;
            return Err(UnexpectedEof);
          }
          if |received| >= HEADER { ExpectedOfPrefix(protocol, received, received + bytes); }
          received := received + bytes;
        case Err(Interrupted) =>
        case Err(WouldBlock) =>
          StoppedShort(protocol, received, stream, reach, Ok(None));
          return Ok(None);
        case Err(Breaks) =>
          StoppedShort(protocol, received, stream, reach, Err(Failed));
          return Err(Failed);
      }
    }
  }

  lemma {:induction false} FrameComplete(p: Protocol, received: Bytes, body: Bytes, rest: Bytes)
    requires p.Valid() && |received| >= HEADER && Expected(p, received) == Ok(Some(|received|))
    requires body == received[HEADER..]
    ensures Encode(p, body) == Ok(received) && Frames(p, received + rest, body)
  {
    HeaderDecides(p, received, body);
    assert received[HEADER..HEADER + |body|] == body && Frames(p, received, body);
    assert Encode(p, body).value == received[..HEADER + |body|] == received;
    assert received <= received + rest;
  }

  /** An incomplete frame at the end of a stream is no frame. */
  lemma {:induction false} NoFrameAtEnd(p: Protocol, stream: Bytes)
    requires p.Valid() && Expected(p, stream).Ok?
    requires |stream| < if Expected(p, stream).value.Some? then Expected(p, stream).value.value else HEADER
    ensures forall body :: !Frames(p, stream, body)
  {
    forall body ensures !Frames(p, stream, body) {
      if |stream| >= HEADER { HeaderDecides(p, stream, body); }
    }
  }
}
