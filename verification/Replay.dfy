/**
 * Byte replay: the ClientHello is read through a recording stream, and what was recorded is put back
 * in front of the same socket. Polls may be pending, fail, or deliver any number of bytes, into
 * buffers of any size that may already hold data.
 */
module Replay {
  import opened Common

  type Bytes = seq<byte>

  datatype Poll = Ready | Error | Pending

  /** What the network does at one poll of the socket. `Deliver(n)` makes up to n + 1 bytes available. */
  datatype Weather = Stall | Break | Deliver(n: nat)

  /** A caller's buffer: at most `capacity` bytes, some of them filled before the call. */
  class ReadBuf {
    const capacity: nat
    var filled: Bytes

    constructor (capacity: nat, filled: Bytes)
      requires |filled| <= capacity
      ensures this.capacity == capacity && this.filled == filled && Valid()
    {
      this.capacity := capacity;
      this.filled := filled;
    }

    ghost predicate Valid()
      reads this
    {
      |filled| <= capacity
    }

    function Remaining(): nat
      requires Valid()
      reads this
    {
      capacity - |filled|
    }
  }

  /** How many bytes a poll hands over: none without room or at the end, otherwise at least one. */
  function Delivered(rest: Bytes, weather: Weather, room: nat): nat {
    if !weather.Deliver? then 0
    else
      var most := if room <= |rest| then room else |rest|;
      if weather.n + 1 <= most then weather.n + 1 else most
  }

  function Outcome(weather: Weather): Poll {
    match weather case Stall => Pending case Break => Error case Deliver(_) => Ready
  }

  /** The socket; `rest` are the client's bytes not yet read from it. */
  class TcpStream {
    var rest: Bytes

    constructor (bytes: Bytes)
      ensures rest == bytes
    {
      rest := bytes;
    }

    method PollRead(buf: ReadBuf, weather: Weather) returns (poll: Poll)
      requires buf.Valid()
      modifies this, buf`filled
      ensures buf.Valid() && poll == Outcome(weather)
      ensures (poll.Ready? <==> weather.Deliver?) && (poll.Pending? <==> weather.Stall?)
      ensures var n := old(Delivered(rest, weather, buf.Remaining()));
              buf.filled == old(buf.filled) + old(rest)[..n] && rest == old(rest)[n..]
    {
      var n := Delivered(rest, weather, buf.Remaining());
      buf.filled := buf.filled + rest[..n];
      rest := rest[n..];
      poll := Outcome(weather);
    }
  }

  class ReadCapturingStream {
    const stream: TcpStream
    var bytes: Bytes

    constructor (stream: TcpStream)
      ensures this.stream == stream && bytes == []
    {
      this.stream := stream;
      bytes := [];
    }

    /** Reads, and records exactly the bytes this read added to the buffer. */
    method PollRead(buf: ReadBuf, weather: Weather) returns (poll: Poll)
      requires buf.Valid()
      modifies this, stream, buf`filled
      ensures buf.Valid() && poll == Outcome(weather)
      ensures (poll.Ready? <==> weather.Deliver?) && (poll.Pending? <==> weather.Stall?)
      ensures var n := old(Delivered(stream.rest, weather, buf.Remaining()));
              && buf.filled == old(buf.filled) + old(stream.rest)[..n]
              && stream.rest == old(stream.rest)[n..]
              && bytes == old(bytes) + old(stream.rest)[..n]
    {
      var before := |buf.filled|;
      poll := stream.PollRead(buf, weather);
      if poll.Ready? {
        bytes := bytes + buf.filled[before..];
      }
    }

    /** Hands the recording over and starts an empty one. */
    method TakeCaptured() returns (captured: Bytes)
      modifies this
      ensures captured == old(bytes) && bytes == []
    {
      captured := bytes;
      bytes := [];
    }
  }

  class PrefixedStream {
    const prefix: Bytes
    var position: nat
    const inner: TcpStream

    ghost predicate Valid()
      reads this
    {
      position <= |prefix|
    }

    /** Everything a reader of this stream has still to come. */
    ghost function Upcoming(): Bytes
      requires Valid()
      reads this, inner
    {
      prefix[position..] + inner.rest
    }

    constructor (prefix: Bytes, inner: TcpStream)
      ensures Valid() && this.prefix == prefix && this.inner == inner && position == 0
    {
      this.prefix := prefix;
      this.inner := inner;
      position := 0;
    }

    /**
     * Whatever the poll yields, the buffer gains a front piece of what is upcoming and the stream
     * loses just that piece. A ready poll with room yields nothing only at the true end.
     */
    method PollRead(buf: ReadBuf, weather: Weather) returns (poll: Poll)
      requires Valid() && buf.Valid()
      modifies this`position, inner, buf`filled
      ensures Valid() && buf.Valid()
      ensures old(buf.filled) <= buf.filled
      ensures buf.filled[|old(buf.filled)|..] + Upcoming() == old(Upcoming())
      ensures poll.Ready? && old(buf.Remaining()) > 0 && buf.filled == old(buf.filled) ==> old(Upcoming()) == []
      ensures !poll.Ready? ==> buf.filled == old(buf.filled)
      ensures poll == if old(position) < |prefix| then Ready else Outcome(weather)
    {
      if position < |prefix| {
        var remaining := prefix[position..];
        var n := if |remaining| <= buf.Remaining() then |remaining| else buf.Remaining();
        buf.filled := buf.filled + remaining[..n];
        position := position + n;
        assert remaining == remaining[..n] + prefix[position..];
        return Ready;
      }
      poll := inner.PollRead(buf, weather);
    }
  }

  /** One read of a run: the buffer offered, and what the network does at that moment. */
  datatype Read = Read(capacity: nat, prefilled: Bytes, weather: Weather)

  predicate Offers(read: Read) {
    |read.prefilled| <= read.capacity
  }

  ghost predicate AllOffer(polls: seq<Read>) {
    forall i :: 0 <= i < |polls| ==> Offers(polls[i])
  }

  /** Any reads while the ClientHello is parsed: what they yield is what is recorded, and nothing else is consumed. */
  method Sniff(io: ReadCapturingStream, polls: seq<Read>) returns (sniffed: Bytes)
    requires AllOffer(polls) && io.bytes == []
    modifies io, io.stream
    ensures io.bytes == sniffed && sniffed + io.stream.rest == old(io.stream.rest)
  {
    sniffed := [];
    for i := 0 to |polls|
      invariant io.bytes == sniffed && sniffed + io.stream.rest == old(io.stream.rest)
      modifies io, io.stream
    {
      var buf := new ReadBuf(polls[i].capacity, polls[i].prefilled);
      assert Offers(polls[i]);
      var _ := io.PollRead(buf, polls[i].weather);
      sniffed := sniffed + buf.filled[|polls[i].prefilled|..];
    }
  }

  /**
   * Any reads on the way to the upstream. `ended` says that some read reported the end of the stream:
   * it was ready, had room, and yielded nothing.
   */
  method Forward(stream: PrefixedStream, polls: seq<Read>) returns (forwarded: Bytes, ended: bool)
    requires AllOffer(polls) && stream.Valid()
    modifies stream`position, stream.inner
    ensures stream.Valid() && forwarded + stream.Upcoming() == old(stream.Upcoming())
    ensures ended ==> stream.Upcoming() == []
  {
    forwarded, ended := [], false;
    for i := 0 to |polls|
      invariant stream.Valid() && forwarded + stream.Upcoming() == old(stream.Upcoming())
      invariant ended ==> stream.Upcoming() == []
      modifies stream`position, stream.inner
    {
      var piece, quiet := ForwardOne(stream, polls[i]);
      forwarded := forwarded + piece;
      ended := ended || quiet;
    }
  }

  method ForwardOne(stream: PrefixedStream, read: Read) returns (piece: Bytes, quiet: bool)
    requires Offers(read) && stream.Valid()
    modifies stream`position, stream.inner
    ensures stream.Valid() && piece + stream.Upcoming() == old(stream.Upcoming())
    ensures quiet ==> old(stream.Upcoming()) == []
  {
    var buf := new ReadBuf(read.capacity, read.prefilled);
    var room := buf.Remaining();
    var poll := stream.PollRead(buf, read.weather);
    piece := buf.filled[|read.prefilled|..];
    assert buf.filled == read.prefilled + piece;
    quiet := poll.Ready? && room > 0 && piece == [];
  }

  /**
   * The passthrough path of the router: sniff with any reads, take the recording, put it in front of
   * the socket, and forward with any reads. What reaches the upstream, followed by what is still to
   * come, is the client's stream from its first byte; and the end of the stream is reported only once
   * all of it has been forwarded.
   */
  method Passthrough(client: TcpStream, sniffing: seq<Read>, forwarding: seq<Read>)
    returns (forwarded: Bytes, ended: bool, stream: PrefixedStream)
    requires AllOffer(sniffing) && AllOffer(forwarding)
    modifies client
    ensures stream.Valid() && stream.inner == client
    ensures forwarded + stream.Upcoming() == old(client.rest)
    ensures ended ==> forwarded == old(client.rest)
  {
    var io := new ReadCapturingStream(client);
    var sniffed := Sniff(io, sniffing);
    var captured := io.TakeCaptured();
    stream := new PrefixedStream(captured, client);
    assert stream.Upcoming() == sniffed + client.rest;
    forwarded, ended := Forward(stream, forwarding);
  }
}
