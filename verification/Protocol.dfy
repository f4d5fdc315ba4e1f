/** The length-prefixed frame protocol with its heartbeat sentinel, over a byte
    stream. The payload codec is a parameter. */
module Protocol {
  import opened Common

  const HEARTBEAT_MAGIC: nat := 0

  const U32_LIMIT: nat := 0x1_0000_0000

  /** `to_allocvec` and `from_bytes` of a frame. */
  datatype Codec<!T> = Codec(encode: (nat, T) -> seq<byte>, decode: seq<byte> -> Option<(nat, T)>)

  /** The codec gives back this frame, and its output fits a frame. */
  ghost predicate Faithful<T>(c: Codec<T>, p: Packet<T>) {
    p.Data? ==> 0 < |c.encode(p.id, p.data)| < U32_LIMIT && c.decode(c.encode(p.id, p.data)) == Some((p.id, p.data))
  }

  ghost predicate AllFaithful<T>(c: Codec<T>, ps: seq<Packet<T>>) {
    forall i | 0 <= i < |ps| :: Faithful(c, ps[i])
  }

  datatype Packet<T> = Data(id: nat, data: T) | Heartbeat

  datatype Received<T> = Got(packet: Packet<T>) | UnexpectedEof | BadPayload

  // ----- Bytes on the wire -----

  function PutU16(n: nat): (b: seq<byte>)
    requires n < 0x1_0000
    ensures |b| == 2
  {
    [(n / 256) as byte, (n % 256) as byte]
  }

  function GetU16(b: seq<byte>): (n: nat)
    requires |b| >= 2
    ensures n < 0x1_0000
  {
    b[0] as nat * 256 + b[1] as nat
  }

  /** `write_u32` is big endian. */
  function PutU32(n: nat): (b: seq<byte>)
    requires n < U32_LIMIT
    ensures |b| == 4
    ensures n == b[0] as int * 0x1_00_0000 + b[1] as int * 0x1_0000 + b[2] as int * 0x100 + b[3] as int
  {
    PutU16(n / 0x1_0000) + PutU16(n % 0x1_0000)
  }

  function GetU32(b: seq<byte>): (n: nat)
    requires |b| >= 4
    ensures n < U32_LIMIT
    ensures n == b[0] as int * 0x1_00_0000 + b[1] as int * 0x1_0000 + b[2] as int * 0x100 + b[3] as int
  {
    GetU16(b) * 0x1_0000 + GetU16(b[2..])
  }

  lemma U32RoundTrip(n: nat, rest: seq<byte>)
    requires n < U32_LIMIT
    ensures GetU32(PutU32(n) + rest) == n
  {
    var hi, lo := n / 0x1_0000, n % 0x1_0000;
    assert (PutU32(n) + rest)[2..] == PutU16(lo) + rest;
    assert hi / 256 * 256 + hi % 256 == hi && lo / 256 * 256 + lo % 256 == lo;
  }

  lemma HeadOf(b: seq<byte>)
    requires |b| >= 4
    ensures GetU32(b[..4]) == GetU32(b)
  {
  }

  function Wire<T>(c: Codec<T>, p: Packet<T>): seq<byte>
    requires p.Data? ==> |c.encode(p.id, p.data)| < U32_LIMIT
  {
    match p
    case Heartbeat => PutU32(HEARTBEAT_MAGIC)
    case Data(id, data) => PutU32(|c.encode(id, data)|) + c.encode(id, data)
  }

  /** What one `receive` takes from the front of the stream, and what it leaves. */
  function Parse<T>(c: Codec<T>, bytes: seq<byte>): (r: (Received<T>, seq<byte>))
    ensures r.0.Got? ==> |r.1| < |bytes|
  {
    if |bytes| < 4 then (UnexpectedEof, [])
    else
      var len := GetU32(bytes);
      if len == HEARTBEAT_MAGIC then (Got(Heartbeat), bytes[4..])
      else if |bytes| < 4 + len then (UnexpectedEof, [])
      else match c.decode(bytes[4..4 + len])
        case None => (BadPayload, bytes[4 + len..])
        case Some((id, data)) => (Got(Data(id, data)), bytes[4 + len..])
  }

  datatype HeartbeatResult = Alive | InvalidResponse | Broken

  function HeartbeatReply(bytes: seq<byte>): HeartbeatResult {
    if |bytes| < 4 then Broken
    else if GetU32(bytes) == HEARTBEAT_MAGIC then Alive
    else InvalidResponse
  }

  lemma HeadOrShort(b: seq<byte>)
    ensures |b| >= 4 ==> GetU32(b[..4]) == GetU32(b)
  {
    if |b| >= 4 {
      HeadOf(b);
    }
  }

  /** The peer is found alive exactly when the first packet it sends back is a heartbeat. */
  lemma AliveIffHeartbeatBack<T>(c: Codec<T>, p: Packet<T>, rest: seq<byte>)
    requires Faithful(c, p)
    ensures HeartbeatReply(Wire(c, p) + rest) == if p.Heartbeat? then Alive else InvalidResponse
  {
    match p
    case Heartbeat => U32RoundTrip(HEARTBEAT_MAGIC, rest);
    case Data(id, data) =>
      var payload := c.encode(id, data);
      U32RoundTrip(|payload|, payload + rest);
      assert Wire(c, p) + rest == PutU32(|payload|) + (payload + rest);
  }

  // ----- The two ends of a stream -----

  /** One end: what has arrived and not been read, and what it has written. */
  class Stream<T> {
    const codec: Codec<T>
    var incoming: seq<byte>
    var outgoing: seq<byte>

    constructor (codec: Codec<T>, incoming: seq<byte>)
      ensures this.codec == codec && this.incoming == incoming && outgoing == []
    {
      this.codec, this.incoming, outgoing := codec, incoming, [];
    }

    method ReadExact(n: nat) returns (r: Option<seq<byte>>)
      modifies this`incoming
      ensures n <= |old(incoming)| ==> r == Some(old(incoming)[..n]) && incoming == old(incoming)[n..]
      ensures n > |old(incoming)| ==> r == None && incoming == []
    {
      if n > |incoming| {
        incoming := [];
        return None;
      }
      r := Some(incoming[..n]);
      incoming := incoming[n..];
    }

    method Send(id: nat, data: T)
      requires |codec.encode(id, data)| < U32_LIMIT
      modifies this`outgoing
      ensures outgoing == old(outgoing) + Wire(codec, Data(id, data))
    {
      var payload := codec.encode(id, data);
      outgoing := outgoing + PutU32(|payload|);
      outgoing := outgoing + payload;
    }

    /** Writes a heartbeat and reads the peer's answer to it. */
    method SendHeartbeat() returns (r: HeartbeatResult)
      modifies this
      ensures outgoing == old(outgoing) + Wire(codec, Heartbeat)
      ensures r == HeartbeatReply(old(incoming)) && (r == Broken <==> |old(incoming)| < 4)
      ensures incoming == if |old(incoming)| < 4 then [] else old(incoming)[4..]
      ensures r == Alive ==> incoming == Parse(codec, old(incoming)).1
    {
      outgoing := outgoing + PutU32(HEARTBEAT_MAGIC);
      HeadOrShort(incoming);
      var head := ReadExact(4);
      if head.None? {
        return Broken;
      }
      r := if GetU32(head.value) == HEARTBEAT_MAGIC then Alive else InvalidResponse;
    }

    /** A heartbeat is answered with a heartbeat. */
    method Receive() returns (r: Received<T>)
      modifies this
      ensures (r, incoming) == Parse(codec, old(incoming))
      ensures outgoing == old(outgoing) + if r == Got(Heartbeat) then Wire(codec, Heartbeat) else []
    {
      ghost var all := incoming;
      var head := ReadExact(4);
      if head.None? {
        return UnexpectedEof;
      }
      var len := GetU32(head.value);
      HeadOf(all);
      if len == HEARTBEAT_MAGIC {
        outgoing := outgoing + PutU32(HEARTBEAT_MAGIC);
        return Got(Heartbeat);
      }
      var buf := ReadExact(len);
      if buf.None? {
        return UnexpectedEof;
      }
      assert all[4..][..len] == all[4..4 + len] && all[4..][len..] == all[4 + len..];
      match codec.decode(buf.value) {
        case None => return BadPayload;
        case Some((id, data)) => return Got(Data(id, data));
      }
    }
  }

  // ----- Framing -----

  /** All packets up to the first failure, and that failure. */
  function ReceiveAll<T>(c: Codec<T>, bytes: seq<byte>): (seq<Packet<T>>, Received<T>)
    decreases |bytes|
  {
    var (r, rest) := Parse(c, bytes);
    if !r.Got? then ([], r)
    else
      var (ps, last) := ReceiveAll(c, rest);
      ([r.packet] + ps, last)
  }

  ghost function WireAll<T>(c: Codec<T>, ps: seq<Packet<T>>): seq<byte>
    requires AllFaithful(c, ps)
  {
    if ps == [] then [] else Wire(c, ps[0]) + WireAll(c, ps[1..])
  }

  /** The first packet of a stream is read back, whatever follows; a data
      packet is never taken for a heartbeat. */
  lemma ParseWire<T>(c: Codec<T>, p: Packet<T>, rest: seq<byte>)
    requires Faithful(c, p)
    ensures Parse(c, Wire(c, p) + rest) == (Got(p), rest)
  {
    var bytes := Wire(c, p) + rest;
    match p
    case Heartbeat =>
      U32RoundTrip(HEARTBEAT_MAGIC, rest);
      assert bytes[4..] == rest;
    case Data(id, data) =>
      var payload := c.encode(id, data);
      U32RoundTrip(|payload|, payload + rest);
      assert bytes == PutU32(|payload|) + (payload + rest);
      assert bytes[4..4 + |payload|] == payload;
      assert bytes[4 + |payload|..] == rest;
  }

  /** A frame that does not decode is taken off the stream whole and reported. */
  lemma ParseUndecodable<T>(c: Codec<T>, payload: seq<byte>, rest: seq<byte>)
    requires 0 < |payload| < U32_LIMIT && c.decode(payload) == None
    ensures Parse(c, PutU32(|payload|) + payload + rest) == (BadPayload, rest)
  {
    var bytes := PutU32(|payload|) + payload + rest;
    U32RoundTrip(|payload|, payload + rest);
    assert bytes == PutU32(|payload|) + (payload + rest);
    assert bytes[4..4 + |payload|] == payload && bytes[4 + |payload|..] == rest;
  }

  /** A packet cut off anywhere is an end of stream, never a packet. */
  lemma ParseCut<T>(c: Codec<T>, p: Packet<T>, cut: nat)
    requires Faithful(c, p)
    requires cut < |Wire(c, p)|
    ensures Parse(c, Wire(c, p)[..cut]).0 == UnexpectedEof
  {
    if p.Data? && cut >= 4 {
      var n := |c.encode(p.id, p.data)|;
      var payload := c.encode(p.id, p.data);
      U32RoundTrip(n, payload[..cut - 4]);
      assert Wire(c, p)[..cut] == PutU32(n) + payload[..cut - 4];
    }
  }

  /** However many data packets and heartbeats precede it, and wherever the
      last one is cut, exactly the complete packets are received, in order. */
  lemma {:induction false} StreamRoundTrip<T>(c: Codec<T>, ps: seq<Packet<T>>, last: Packet<T>, cut: nat)
    requires AllFaithful(c, ps) && Faithful(c, last)
    requires cut < |Wire(c, last)|
    ensures ReceiveAll(c, WireAll(c, ps) + Wire(c, last)[..cut]) == (ps, UnexpectedEof)
  {
    var tail := Wire(c, last)[..cut];
    if ps == [] {
      assert WireAll(c, ps) + tail == tail;
      ParseCut(c, last, cut);
    } else {
      var more := WireAll(c, ps[1..]) + tail;
      assert WireAll(c, ps) + tail == Wire(c, ps[0]) + more;
      ParseWire(c, ps[0], more);
      StreamRoundTrip(c, ps[1..], last, cut);
      assert [ps[0]] + ps[1..] == ps;
    }
  }
}
