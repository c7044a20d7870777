/** The frames a client sends to a datagram sink, and the sink's decoding of one receive buffer. */
module FrameCodec {
  type Byte = b: nat | b < 256

  const META_SIZE: nat := 80          // size of the metadata record
  const HEADER_SIZE: nat := 8         // preamble and length
  const PING_SIZE: nat := 4
  const MAX_MESSAGE_SIZE: nat := 65535
  const PREAMBLE: nat := 0xF00D_FEED
  const PING: nat := 0xF00D_F00D
  const WORD32: nat := 0x1_0000_0000

  /** A 32-bit number in memory order, lowest byte first. */
  function ToBytes(n: nat): (bs: seq<Byte>)
    requires n < WORD32
    ensures |bs| == 4
  {
    [n % 256, n / 256 % 256, n / 256 / 256 % 256, n / 256 / 256 / 256 % 256]
  }

  function FromBytes(bs: seq<Byte>): nat
    requires |bs| == 4
  {
    var b0: nat, b1: nat, b2: nat, b3: nat := bs[0], bs[1], bs[2], bs[3];
    b0 + 256 * (b1 + 256 * (b2 + 256 * b3))
  }

  lemma BytesRoundTrip(n: nat)
    requires n < WORD32
    ensures FromBytes(ToBytes(n)) == n
  {
  }

  datatype Frame = Frame(meta: seq<Byte>, text: seq<Byte>)

  /** A frame the client can send: its length field does not wrap around. */
  ghost predicate Sendable(f: Frame) {
    |f.meta| == META_SIZE && |f.text| + META_SIZE < WORD32
  }

  /** The bytes grease_logToSink sends: header, metadata, message. The length counts the metadata too. */
  function Encode(f: Frame): (bs: seq<Byte>)
    requires |f.meta| == META_SIZE
    ensures |bs| == HEADER_SIZE + META_SIZE + |f.text|
  {
    ToBytes(PREAMBLE) + ToBytes((|f.text| + META_SIZE) % WORD32) + f.meta + f.text
  }

  ghost function EncodeAll(fs: seq<Frame>): seq<Byte>
    requires forall f :: f in fs ==> Sendable(f)
  {
    if fs == [] then [] else assert Sendable(fs[0]); Encode(fs[0]) + EncodeAll(fs[1..])
  }

  /** What the sink does: a call of logP, or the answer to a ping. */
  datatype Action = LogP(meta: seq<Byte>, text: seq<Byte>) | PingAck

  /** logP turns away longer messages. */
  predicate Accepts(a: Action) { a.LogP? && |a.text| <= MAX_MESSAGE_SIZE }

  /** logFromRaw: no call for an entry without a message or too short for its metadata. */
  function FromRaw(entry: seq<Byte>): seq<Action> {
    if |entry| > META_SIZE then [LogP(entry[..META_SIZE], entry[META_SIZE..])] else []
  }

  predicate IsPing(bs: seq<Byte>) requires |bs| >= PING_SIZE { bs[..PING_SIZE] == ToBytes(PING) }

  predicate IsPreamble(bs: seq<Byte>) requires |bs| >= PING_SIZE { bs[..PING_SIZE] == ToBytes(PREAMBLE) }

  function Drop(bs: seq<Byte>, n: nat): (r: seq<Byte>)
    ensures |r| == if n <= |bs| then |bs| - n else 0
  {
    if n <= |bs| then bs[n..] else []
  }

  /** The actions for the bytes of one buffer, between entries. */
  function Decode(bs: seq<Byte>): seq<Action>
    decreases |bs|, 0
  {
    if |bs| < PING_SIZE then []
    else if IsPing(bs) then [PingAck] + Decode(Drop(bs, HEADER_SIZE))
    else if !IsPreamble(bs) then Decode(Drop(bs, HEADER_SIZE))
    else if |bs| <= HEADER_SIZE then []
    else DecodeEntry(bs[HEADER_SIZE..], FromBytes(bs[PING_SIZE..HEADER_SIZE]))
  }

  /** The actions for the bytes of one buffer, where an entry of the given size starts. */
  function DecodeEntry(bs: seq<Byte>, size: nat): seq<Action>
    decreases |bs|, 1
  {
    if size <= |bs| then FromRaw(bs[..size]) + Decode(bs[size..]) else []
  }

  datatype ParseState = NeedPreamble | InPreamble | InLog

  /** The sink's loop over the count bytes it received, which fit one buffer: it ends on every input.
      A size field beyond the received bytes is read but decides nothing. */
  method Receive(buffer: seq<Byte>, count: nat) returns (actions: seq<Action>)
    requires count <= |buffer|
    ensures actions == Decode(buffer[..count])
  {
    hide Decode, DecodeEntry, FromBytes, ToBytes, FromRaw, IsPing, IsPreamble;
    actions := [];
    var received := buffer[..count];
    var walk: nat, remain: int, entrySize: nat, state := 0, count, 0, NeedPreamble;
    assert received[0..] == received;
    DecodeNothing();
    while walk < count
      invariant 0 <= walk && walk + remain == count && (walk < count ==> state != InPreamble)
      invariant actions + Rest(received, walk, state, entrySize) == Decode(received)
      decreases count - walk, if state == InLog then 1 else 0
    {
      var bs := received[walk..];
      DecodeIs(bs);
      match state {
        case NeedPreamble =>
          if remain >= PING_SIZE {
            if IsPing(bs) {
              walk, remain := walk + HEADER_SIZE, remain - HEADER_SIZE;
              actions := actions + [PingAck];
            } else {
              if IsPreamble(bs) {
                state := InLog;
                if walk + HEADER_SIZE <= |buffer| {
                  entrySize := FromBytes(buffer[walk + PING_SIZE..walk + HEADER_SIZE]);
                }
                SizeField(buffer, count, walk);
              }
              walk, remain := walk + HEADER_SIZE, remain - HEADER_SIZE;
            }
            RestIs(received, walk, bs, HEADER_SIZE);
          } else {
            walk, remain := walk + remain, 0;
            state := InPreamble;
          }
        case InLog =>
          DecodeEntryIs(bs, entrySize);
          if remain >= entrySize {
            actions := actions + FromRaw(bs[..entrySize]);
            walk, remain := walk + entrySize, remain - entrySize;
            state := NeedPreamble;
            RestIs(received, walk, bs, entrySize);
          } else {
            walk, remain := walk + remain, 0;
          }
        case InPreamble => assert false;
      }
    }
  }

  /** What is still to come: nothing once everything received has been walked over. */
  ghost function Rest(received: seq<Byte>, walk: nat, state: ParseState, size: nat): seq<Action> {
    if walk >= |received| then []
    else if state == InLog then DecodeEntry(received[walk..], size)
    else Decode(received[walk..])
  }

  lemma SizeField(buffer: seq<Byte>, count: nat, walk: nat)
    requires walk <= count <= |buffer|
    ensures walk + HEADER_SIZE <= count ==>
            buffer[walk + PING_SIZE..walk + HEADER_SIZE] == buffer[..count][walk..][PING_SIZE..HEADER_SIZE]
  {
    if walk + HEADER_SIZE <= count {
      var bs := buffer[..count][walk..];
      assert forall i :: 0 <= i < 4 ==> bs[PING_SIZE..HEADER_SIZE][i] == bs[PING_SIZE + i];
    }
  }

  lemma DecodeNothing()
    ensures Decode([]) == []
  {
  }

  lemma DecodeIs(bs: seq<Byte>)
    ensures Decode(bs) ==
            if |bs| < PING_SIZE then []
            else if IsPing(bs) then [PingAck] + Decode(Drop(bs, HEADER_SIZE))
            else if !IsPreamble(bs) then Decode(Drop(bs, HEADER_SIZE))
            else if |bs| <= HEADER_SIZE then []
            else DecodeEntry(bs[HEADER_SIZE..], FromBytes(bs[PING_SIZE..HEADER_SIZE]))
  {
  }

  lemma DecodeEntryIs(bs: seq<Byte>, size: nat)
    ensures DecodeEntry(bs, size) == if size <= |bs| then FromRaw(bs[..size]) + Decode(bs[size..]) else []
  {
  }

  lemma RestIs(received: seq<Byte>, walk: nat, bs: seq<Byte>, n: nat)
    requires n <= walk && walk - n < |received| && bs == received[walk - n..]
    ensures walk < |received| ==> received[walk..] == bs[n..]
    ensures walk >= |received| ==> Drop(bs, n) == []
    ensures walk == |received| ==> bs[n..] == []
  {
  }

  // Round trip

  /** The call each frame stands for; a frame without a message stands for none. */
  ghost function Calls(fs: seq<Frame>): seq<Action> {
    if fs == [] then [] else (if fs[0].text == [] then [] else [LogP(fs[0].meta, fs[0].text)]) + Calls(fs[1..])
  }

  lemma DecodeFrame(f: Frame, rest: seq<Byte>)
    requires Sendable(f)
    ensures Decode(Encode(f) + rest) == (if f.text == [] then [] else [LogP(f.meta, f.text)]) + Decode(rest)
  {
    hide ToBytes, FromBytes, Decode, DecodeEntry;
    var bs, size := Encode(f) + rest, |f.text| + META_SIZE;
    HeaderParts(f, rest);
    NotPing();
    BytesRoundTrip(size);
    DecodeIs(bs);
    var body := f.meta + f.text + rest;
    DecodeEntryIs(body, size);
    assert body[..size] == f.meta + f.text && body[size..] == rest;
    assert (f.meta + f.text)[..META_SIZE] == f.meta && (f.meta + f.text)[META_SIZE..] == f.text;
  }

  lemma HeaderParts(f: Frame, rest: seq<Byte>)
    requires Sendable(f)
    ensures var bs := Encode(f) + rest;
            && bs[..PING_SIZE] == ToBytes(PREAMBLE) && bs[PING_SIZE..HEADER_SIZE] == ToBytes(|f.text| + META_SIZE)
            && bs[HEADER_SIZE..] == f.meta + f.text + rest
  {
    hide ToBytes;
  }

  lemma NotPing()
    ensures ToBytes(PING) != ToBytes(PREAMBLE)
  {
    assert ToBytes(PING)[0] != ToBytes(PREAMBLE)[0];
  }

  /** Frames packed into one buffer give one logP call each, in order, with the same metadata and
      bytes; only frames without a message give none. */
  lemma {:induction false} DecodeEncode(fs: seq<Frame>)
    requires forall f :: f in fs ==> Sendable(f)
    ensures Decode(EncodeAll(fs)) == Calls(fs)
  {
    if fs == [] {
      DecodeNothing();
    } else {
      DecodeEncode(fs[1..]);
      DecodeFrame(fs[0], EncodeAll(fs[1..]));
    }
  }

  /** So frames with messages all arrive, each once, in order; logP accepts exactly those of up to 65535 bytes. */
  lemma {:induction false} AllArrive(fs: seq<Frame>)
    requires forall f :: f in fs ==> Sendable(f) && f.text != []
    ensures |Decode(EncodeAll(fs))| == |fs|
    ensures forall i :: 0 <= i < |fs| ==>
              && Decode(EncodeAll(fs))[i] == LogP(fs[i].meta, fs[i].text)
              && (Accepts(Decode(EncodeAll(fs))[i]) <==> |fs[i].text| <= 65535)
  {
    hide Decode, EncodeAll;
    DecodeEncode(fs);
    CallsEach(fs);
    forall i | 0 <= i < |fs| ensures fs[i] in fs {}
  }

  lemma {:induction false} CallsEach(fs: seq<Frame>)
    requires forall f :: f in fs ==> f.text != []
    ensures |Calls(fs)| == |fs| && forall i :: 0 <= i < |fs| ==> Calls(fs)[i] == LogP(fs[i].meta, fs[i].text)
  {
    if fs != [] { CallsEach(fs[1..]); }
  }

  /** The frames that fit whole into the first n bytes. */
  ghost function Whole(fs: seq<Frame>, n: nat): seq<Frame>
    requires forall f :: f in fs ==> Sendable(f)
  {
    if fs == [] then []
    else
      assert Sendable(fs[0]);
      if n < |Encode(fs[0])| then [] else [fs[0]] + Whole(fs[1..], n - |Encode(fs[0])|)
  }

  /** A buffer cut short loses the frame it cuts and those after it, and nothing else. */
  lemma {:induction false} CutShort(fs: seq<Frame>, n: nat)
    requires (forall f :: f in fs ==> Sendable(f)) && n <= |EncodeAll(fs)|
    ensures Decode(EncodeAll(fs)[..n]) == Calls(Whole(fs, n))
  {
    hide Decode;
    if fs == [] {
      DecodeNothing();
    } else {
      var first, k := Encode(fs[0]), |Encode(fs[0])|;
      if n < k {
        assert EncodeAll(fs)[..n] == first[..n];
        DecodeCut(fs[0], n);
      } else {
        CutShort(fs[1..], n - k);
        assert EncodeAll(fs)[..n] == first + EncodeAll(fs[1..])[..n - k];
        DecodeFrame(fs[0], EncodeAll(fs[1..])[..n - k]);
      }
    }
  }

  lemma DecodeCut(f: Frame, n: nat)
    requires Sendable(f) && n < |Encode(f)|
    ensures Decode(Encode(f)[..n]) == []
  {
    hide ToBytes, FromBytes, Decode, DecodeEntry;
    var bs, size := Encode(f)[..n], |f.text| + META_SIZE;
    HeaderParts(f, []);
    assert Encode(f) + [] == Encode(f);
    NotPing();
    BytesRoundTrip(size);
    DecodeIs(bs);
    if n > HEADER_SIZE {
      assert bs[PING_SIZE..HEADER_SIZE] == Encode(f)[PING_SIZE..HEADER_SIZE];
      DecodeEntryIs(bs[HEADER_SIZE..], size);
    }
    assert n >= PING_SIZE ==> bs[..PING_SIZE] == Encode(f)[..PING_SIZE];
  }

  // What any byte string stands for

  /** A piece of a buffer: an entry with its header, a ping with the four bytes after it, or eight bytes that
      start with neither mark. */
  datatype Item = Entry(raw: seq<Byte>) | Ping(pad: seq<Byte>) | Junk(junk: seq<Byte>)

  ghost predicate IsItem(x: Item) {
    match x
    case Entry(raw) => |raw| < 0x1_0000_0000
    case Ping(pad) => |pad| == 4
    case Junk(junk) => |junk| == 8 && !Starts(junk, [0x0D, 0xF0, 0x0D, 0xF0]) && !Starts(junk, [0xED, 0xFE, 0x0D, 0xF0])
  }

  ghost predicate Starts(bs: seq<Byte>, mark: seq<Byte>) { |mark| <= |bs| && bs[..|mark|] == mark }

  /** The bytes of a piece; numbers and marks are in memory order. */
  ghost function Pack(x: Item): seq<Byte>
    requires IsItem(x)
  {
    match x
    case Entry(raw) => [0xED, 0xFE, 0x0D, 0xF0] + ToBytes(|raw|) + raw
    case Ping(pad) => [0x0D, 0xF0, 0x0D, 0xF0] + pad
    case Junk(junk) => junk
  }

  /** An entry longer than its metadata is logged, a ping is answered. */
  ghost function Effect(x: Item): seq<Action> {
    match x
    case Entry(raw) => if |raw| > 80 then [LogP(raw[..80], raw[80..])] else []
    case Ping(_) => [PingAck]
    case Junk(_) => []
  }

  ghost function PackAll(xs: seq<Item>): seq<Byte>
    requires forall x :: x in xs ==> IsItem(x)
  {
    if xs == [] then [] else Pack(xs[0]) + PackAll(xs[1..])
  }

  ghost function Effects(xs: seq<Item>): seq<Action> {
    if xs == [] then [] else Effect(xs[0]) + Effects(xs[1..])
  }

  /** The end of a buffer that is no whole piece: fewer than eight bytes, or an entry cut short. */
  ghost predicate Partial(bs: seq<Byte>) {
    if Starts(bs, [0xED, 0xFE, 0x0D, 0xF0]) then |bs| < 8 || |bs| - 8 < FromBytes(bs[4..8]) else |bs| < 8
  }

  lemma Marks()
    ensures ToBytes(PREAMBLE) == [0xED, 0xFE, 0x0D, 0xF0] && ToBytes(PING) == [0x0D, 0xF0, 0x0D, 0xF0]
  {
  }

  lemma MarkTests(bs: seq<Byte>)
    requires |bs| >= 4
    ensures IsPing(bs) <==> Starts(bs, [0x0D, 0xF0, 0x0D, 0xF0])
    ensures IsPreamble(bs) <==> Starts(bs, [0xED, 0xFE, 0x0D, 0xF0])
  {
    hide ToBytes;
    Marks();
  }

  lemma NumberRoundTrip(bs: seq<Byte>)
    requires |bs| == 4
    ensures FromBytes(bs) < WORD32 && ToBytes(FromBytes(bs)) == bs
  {
    var b0: nat, b1: nat, b2: nat, b3: nat := bs[0], bs[1], bs[2], bs[3];
    LowByte(b3, 0);
    LowByte(b2, b3);
    LowByte(b1, b2 + 256 * b3);
    LowByte(b0, b1 + 256 * (b2 + 256 * b3));
  }

  lemma LowByte(b: Byte, rest: nat)
    ensures (b + 256 * rest) % 256 == b && (b + 256 * rest) / 256 == rest
  {
  }

  /** What the client sends is an entry of the metadata and the message. */
  lemma FrameIsEntry(f: Frame)
    requires Sendable(f)
    ensures Encode(f) == Pack(Entry(f.meta + f.text))
  {
    hide ToBytes;
    Marks();
  }

  /** A whole piece at the front is dealt with by itself. */
  lemma DecodeItem(x: Item, rest: seq<Byte>)
    requires IsItem(x)
    ensures Decode(Pack(x) + rest) == Effect(x) + Decode(rest)
  {
    hide ToBytes, FromBytes, Decode, DecodeEntry, IsPing, IsPreamble;
    var bs := Pack(x) + rest;
    MarkTests(bs);
    DecodeIs(bs);
    match x
    case Ping(pad) => assert Starts(bs, [0x0D, 0xF0, 0x0D, 0xF0]) && bs[8..] == rest;
    case Junk(junk) => assert bs[..4] == junk[..4] && bs[8..] == rest;
    case Entry(raw) => DecodeEntryItem(raw, rest);
  }

  lemma DecodeEntryItem(raw: seq<Byte>, rest: seq<Byte>)
    requires |raw| < WORD32
    ensures Decode(Pack(Entry(raw)) + rest) == Effect(Entry(raw)) + Decode(rest)
  {
    hide ToBytes, FromBytes, Decode, DecodeEntry, IsPing, IsPreamble;
    var bs := Pack(Entry(raw)) + rest;
    MarkTests(bs);
    DecodeIs(bs);
    BytesRoundTrip(|raw|);
    assert bs[..4] == [0xED, 0xFE, 0x0D, 0xF0] && bs[4..8] == ToBytes(|raw|) && bs[8..] == raw + rest;
    DecodeEntryIs(raw + rest, |raw|);
    assert (raw + rest)[..|raw|] == raw && (raw + rest)[|raw|..] == rest;
    DecodeNothing();
  }

  /** What is left at the end has no effect, except that a ping is answered. */
  lemma DecodePartial(bs: seq<Byte>)
    requires Partial(bs)
    ensures Decode(bs) == if Starts(bs, [0x0D, 0xF0, 0x0D, 0xF0]) then [PingAck] else []
  {
    hide ToBytes, FromBytes, Decode, DecodeEntry, IsPing, IsPreamble;
    if |bs| >= 4 { MarkTests(bs); }
    DecodeIs(bs);
    DecodeNothing();
    if |bs| > 8 { DecodeEntryIs(bs[8..], FromBytes(bs[4..8])); }
  }

  /** The first piece of a buffer that has a whole one. */
  lemma FirstItem(bs: seq<Byte>) returns (x: Item, rest: seq<Byte>)
    requires !Partial(bs)
    ensures IsItem(x) && bs == Pack(x) + rest && |rest| < |bs|
  {
    hide ToBytes, FromBytes;
    if Starts(bs, [0xED, 0xFE, 0x0D, 0xF0]) {
      var size := FromBytes(bs[4..8]);
      NumberRoundTrip(bs[4..8]);
      x, rest := Entry(bs[8..8 + size]), bs[8 + size..];
      assert bs == bs[..4] + bs[4..8] + bs[8..8 + size] + bs[8 + size..];
    } else if Starts(bs, [0x0D, 0xF0, 0x0D, 0xF0]) {
      x, rest := Ping(bs[4..8]), bs[8..];
      assert bs == bs[..4] + bs[4..8] + bs[8..];
    } else {
      x, rest := Junk(bs[..8]), bs[8..];
      assert bs[..8][..4] == bs[..4];
    }
  }

  /** Every byte string is whole pieces and a partial one, and decoding it has the effects of the pieces in
      order; of the partial one only a ping is answered. */
  lemma {:induction false} DecodeIsExact(bs: seq<Byte>) returns (xs: seq<Item>, tail: seq<Byte>)
    ensures (forall x :: x in xs ==> IsItem(x)) && bs == PackAll(xs) + tail && Partial(tail)
    ensures Decode(bs) == Effects(xs) + if Starts(tail, [0x0D, 0xF0, 0x0D, 0xF0]) then [PingAck] else []
    decreases |bs|
  {
    hide Decode, Pack, Effect, Partial, IsItem, Starts;
    if Partial(bs) {
      xs, tail := [], bs;
      DecodePartial(bs);
    } else {
      var x, rest := FirstItem(bs);
      var more;
      more, tail := DecodeIsExact(rest);
      xs := [x] + more;
      DecodeItem(x, rest);
    }
  }

  /** Whatever way the pieces were put together, decoding has their effects, in order. */
  lemma {:induction false} DecodeItems(xs: seq<Item>, tail: seq<Byte>)
    requires (forall x :: x in xs ==> IsItem(x)) && Partial(tail)
    ensures Decode(PackAll(xs) + tail) == Effects(xs) + if Starts(tail, [0x0D, 0xF0, 0x0D, 0xF0]) then [PingAck] else []
  {
    hide Decode, Pack, Effect, Partial, IsItem, Starts;
    if xs == [] {
      assert PackAll(xs) + tail == tail;
      DecodePartial(tail);
    } else {
      DecodeItems(xs[1..], tail);
      assert PackAll(xs) + tail == Pack(xs[0]) + (PackAll(xs[1..]) + tail);
      DecodeItem(xs[0], PackAll(xs[1..]) + tail);
    }
  }
}
