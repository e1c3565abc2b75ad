/** The two PPCS sessions: datagrams in, frames out, and the commands one of them writes. */
module PpcsSessions {
  import opened Bytes
  import opened IdentityCodecs
  import opened PpcsFrames
  import opened PpcsReassembly

  datatype Peer = Peer(host: string, port: nat)
  datatype Sent = Sent(message: bytes, peer: Peer)

  /** A handler's return value, or that it threw. */
  datatype Handled = Returned(connected: bool) | Threw

  const CHECK: bytes := [0xf1, 0x41]
  const PING: bytes := [0xf1, 0xe0]
  const ACK: bytes := [0xf1, 0xd1]
  const DATA: bytes := [0xf1, 0xd0]
  const LOCAL_LOOKUP: bytes := [0xf1, 0x41]
  const CAM_ID: bytes := [0xf1, 0x42]
  const DATA_HEADER: bytes := [0xd1, 0]
  const VIDEO_HEADER: bytes := [0xd1, 1]

  predicate Has(message: bytes, header: bytes)
    requires |header| == 2
  {
    |message| >= 2 && message[0] == header[0] && message[1] == header[1]
  }

  /** `#send`: a request header, the payload's length modulo 65536, the payload. */
  function Outer(header: bytes, payload: bytes): bytes {
    header + (U16BE(|payload|) + payload)
  }

  /** The numbered datagram inside a data message. */
  function Received(message: bytes): Datagram
    requires |message| >= 8
  {
    Datagram(message[5], ReadU16BE(message, 6), message[8..])
  }

  function Acknowledgement(message: bytes): bytes
    requires |message| >= 8
  {
    Outer(ACK, message[4..6] + (U16BE(1) + U16BE(ReadU16BE(message, 6))))
  }

  /** A message that begins with these two bytes. */
  predicate Starts(message: bytes, first: byte, second: byte) {
    |message| >= 2 && message[0] == first && message[1] == second
  }

  /** An acknowledgement, byte by byte: header, length 6, the type's two bytes, count 1, the number. */
  lemma AcknowledgementBytes(message: bytes)
    requires |message| >= 8
    ensures Acknowledgement(message) ==
            [0xf1, 0xd1, 0, 6, message[4], message[5], 0, 1, message[6], message[7]]
  {
    assert message[4..6] == [message[4], message[5]];
  }

  lemma AcknowledgementIsOuter(message: bytes)
    requires |message| >= 8
    ensures Acknowledgement(message) ==
            Outer(ACK, message[4..6] + (U16BE(1) + U16BE(ReadU16BE(message, 6))))
  {
  }

  /** The other replies, byte by byte. */
  lemma ReplyBytes(did: bytes)
    requires |did| == 20
    ensures Outer(PING, []) == [0xf1, 0xe0, 0, 0]
    ensures Outer(CHECK, did + Zeros(3)) == [0xf1, 0x41, 0, 23] + did + [0, 0, 0]
  {
    assert Zeros(3) == [0, 0, 0];
  }

  lemma SixteenBits(v: nat)
    ensures U16BE(v) == [v / 256 % 256, v % 256] && U16LE(v) == [v % 256, v / 256 % 256]
  {
    assert v % 0x1_0000 / 256 == v / 256 % 256 && v % 0x1_0000 % 256 == v % 256;
  }

  /** A command, byte by byte: header, length, data header, number, magic, command, and then the payload. */
  lemma CommandBytes(sequence: nat, command: nat, payload: bytes)
    ensures CommandMessage(sequence, command, payload) ==
            [0xf1, 0xd0, (|payload| + 10) / 256 % 256, (|payload| + 10) % 256,
             0xd1, 0, sequence / 256 % 256, sequence % 256,
             0x58, 0x5a, 0x59, 0x48, command % 256, command / 256 % 256] + payload
  {
    SixteenBits(|payload| + 10);
    SixteenBits(sequence);
    SixteenBits(command);
    hide U16BE, U16LE;
    var inner := DATA_HEADER + (U16BE(sequence) + (MAGIC + U16LE(command)));
    assert |inner + payload| == |payload| + 10;
    assert inner == [0xd1, 0, sequence / 256 % 256, sequence % 256,
                     0x58, 0x5a, 0x59, 0x48, command % 256, command / 256 % 256];
  }

  /** The numbered datagram, byte by byte. */
  lemma ReceivedBytes(message: bytes)
    requires |message| >= 8
    ensures Received(message).kind == message[5]
    ensures Received(message).sequence == message[6] as int * 256 + message[7] as int
    ensures Received(message).data == message[8..]
  {
  }

  /** Whether something of the type was lost since the number a session remembers. */
  predicate Lost(last: map<byte, Sequence>, kind: byte, sequence: Sequence) {
    kind in last && sequence != last[kind] && !Succeeds(last[kind], sequence)
  }

  lemma JumpsIffNumbersSay(last: map<byte, Sequence>, d: Datagram)
    ensures Jumps(last, d) <==> Lost(last, d.kind, d.sequence)
  {
    if d.kind in last {
      JumpIsLoss(last[d.kind], d.sequence);
    }
  }

  /** What a session must hold and deliver after a datagram: bytes kept unless something was lost, and then parsed. */
  ghost predicate Consumes(policy: Policy, before: Buffers, after: Buffers, frames: seq<Frame>, d: Datagram) {
    var lost := Lost(before.last, d.kind, d.sequence);
    var held := if lost || d.kind !in before.pending then [] else before.pending[d.kind];
    var scan := Scan(held + d.data);
    && frames == scan.frames
    && after.last == before.last[d.kind := d.sequence]
    && (forall kind :: kind != d.kind ==> (kind in after.pending <==> kind in before.pending))
    && (forall kind :: kind != d.kind && kind in before.pending ==> after.pending[kind] == before.pending[kind])
    && Pending(after, d.kind) ==
       if !scan.oversize then scan.rest else if policy == DropPending then [] else held
  }

  lemma ConsumeConsumes(policy: Policy, b: Buffers, d: Datagram)
    ensures Consumes(policy, b, Consume(policy, b, d), ScanOf(b, d).frames, d)
  {
    hide Scan, Gap;
    JumpsIffNumbersSay(b.last, d);
  }

  lemma TaggedAppend(kind: byte, frames: seq<Frame>, f: Frame)
    ensures Tagged(kind, frames + [f]) == Tagged(kind, frames) + [Delivery(kind, f)]
  {
  }

  /** What a loop over buffered bytes has done: `done` is delivered, `pending` is left. */
  ghost predicate ScannedSoFar(input: bytes, done: seq<Frame>, pending: bytes) {
    var later := Scan(pending);
    Scan(input) == later.(frames := done + later.frames)
  }

  lemma OneMore(input: bytes, done: seq<Frame>, pending: bytes)
    requires ScannedSoFar(input, done, pending) && Complete(pending)
    ensures ScannedSoFar(input, done + [First(pending)], pending[End(pending)..])
  {
    hide Scan;
    ScanStep(pending);
  }

  lemma NoMore(input: bytes, done: seq<Frame>, pending: bytes)
    requires ScannedSoFar(input, done, pending) && !Complete(pending)
    ensures Scan(input) == Scanned(done, pending, Oversized(pending))
  {
    hide Scan;
    ScanStep(pending);
  }

  /** The media session, which forgets what precedes an oversize header. */
  class FirstPartyPpcsSession {
    var pendingByType: map<byte, bytes>
    var lastSequenceByType: map<byte, Sequence>
    /** The frames consumed, in order. */
    var delivered: seq<Delivery>
    /** The datagrams consumed, in order. */
    ghost var log: seq<Datagram>

    ghost function State(): Buffers
      reads this
    {
      Buffers(pendingByType, lastSequenceByType)
    }

    ghost predicate Valid()
      reads this
    {
      State() == Run(DropPending, log) && delivered == Deliveries(DropPending, log)
    }

    constructor ()
      ensures Valid() && log == []
    {
      pendingByType, lastSequenceByType, delivered, log := map[], map[], [], [];
    }

    /** The data branch of `#handle`, for a connected session: acknowledge, then consume. */
    method HandleDataMessage(message: bytes) returns (threw: bool, reply: bytes)
      requires Valid()
      modifies this
      ensures threw == (|message| < 8)
      ensures !threw ==>
                reply == [0xf1, 0xd1, 0, 6, message[4], message[5], 0, 1, message[6], message[7]]
      ensures Valid()
      ensures log == old(log) +
                     if |message| >= 8
                        && ((message[4] == 0xd1 && (message[5] == 0 || message[5] == 1)) || message[5] == 2)
                     then [Datagram(message[5], message[6] as int * 256 + message[7] as int, message[8..])]
                     else []
    {
      hide Run, Deliveries, Completes, Consume, Consumes, Scan;
      if |message| < 8 {
        return true, [];
      }
      reply := Acknowledgement(message);
      AcknowledgementBytes(message);
      ReceivedBytes(message);
      assert message[4..6] == [message[4], message[5]];
      if message[4..6] == VIDEO_HEADER || message[4..6] == DATA_HEADER || message[5] == 2 {
        Appended(DropPending, log, Received(message), 0);
        ConsumeData(message[8..], ReadU16BE(message, 6), message[5]);
        log := log + [Received(message)];
      }
      threw := false;
    }

    method ConsumeData(data: bytes, sequence: Sequence, kind: byte)
      modifies this
      ensures State() == Consume(DropPending, old(State()), Datagram(kind, sequence, data))
      ensures delivered == old(delivered) + Tagged(kind, ScanOf(old(State()), Datagram(kind, sequence, data)).frames)
      ensures Consumes(DropPending, old(State()), State(), ScanOf(old(State()), Datagram(kind, sequence, data)).frames,
                       Datagram(kind, sequence, data))
      ensures log == old(log)
    {
      hide Scan, Tagged, ScannedSoFar, HasHeader, DeclaredSize, Consumes;
      ConsumeConsumes(DropPending, State(), Datagram(kind, sequence, data));
      if kind in lastSequenceByType && Gap(lastSequenceByType[kind], sequence) > 1 {
        pendingByType := pendingByType - {kind};
      }
      lastSequenceByType := lastSequenceByType[kind := sequence];
      var pending := (if kind in pendingByType then pendingByType[kind] else []) + data;
      ghost var input, kept, last := pending, pendingByType, lastSequenceByType;
      assert input == Held(old(State()), Datagram(kind, sequence, data)) + data;
      ghost var done: seq<Frame> := [];
      ScanStarts(input, kind);
      assert old(delivered) + [] == old(delivered);
      while HasHeader(pending)
        invariant ScannedSoFar(input, done, pending)
        invariant delivered == old(delivered) + Tagged(kind, done)
        invariant pendingByType == kept && lastSequenceByType == last && log == old(log)
        decreases |pending|
      {
        SizeDecides(pending);
        var size := DeclaredSize(pending);
        if size > MAX_PAYLOAD {
          NoMore(input, done, pending);
          pendingByType := pendingByType - {kind};
          return;
        }
        if |pending| < HEADER + size {
          NoMore(input, done, pending);
          pendingByType := pendingByType[kind := pending];
          return;
        }
        var frame := First(pending);
        OneMore(input, done, pending);
        TaggedAppend(kind, done, frame);
        done := done + [frame];
        delivered := delivered + [Delivery(kind, frame)];
        pending := pending[HEADER + size..];
      }
      HeaderDecides(pending);
      NoMore(input, done, pending);
      pendingByType := pendingByType[kind := pending];
    }
  }

  lemma ScanStarts(input: bytes, kind: byte)
    ensures ScannedSoFar(input, [], input) && Tagged(kind, []) == []
  {
    assert [] + Scan(input).frames == Scan(input).frames;
  }

  lemma SizeDecides(data: bytes)
    requires HasHeader(data)
    ensures Oversized(data) <==> DeclaredSize(data) > MAX_PAYLOAD
    ensures Complete(data) <==> DeclaredSize(data) <= MAX_PAYLOAD && HEADER + DeclaredSize(data) <= |data|
    ensures Complete(data) ==> End(data) == HEADER + DeclaredSize(data)
  {
  }

  lemma HeaderDecides(data: bytes)
    requires !HasHeader(data)
    ensures !Complete(data) && !Oversized(data)
  {
  }

  /**
   * The HomeBase session, which throws at an oversize header. It also answers
   * the discovery messages and writes the commands.
   */
  class HomeBasePpcsSession {
    const p2pDid: text
    var remote: Option<Peer>
    var sequence: nat
    var pendingByType: map<byte, bytes>
    var lastSequenceByType: map<byte, Sequence>
    var sent: seq<Sent>
    var delivered: seq<Delivery>
    ghost var log: seq<Datagram>

    ghost function State(): Buffers
      reads this
    {
      Buffers(pendingByType, lastSequenceByType)
    }

    ghost predicate Valid()
      reads this
    {
      State() == Run(KeepPending, log) && delivered == Deliveries(KeepPending, log)
    }

    constructor (p2pDid: text)
      ensures Valid() && log == [] && remote == None && sequence == 0 && sent == []
    {
      this.p2pDid := p2pDid;
      remote, sequence, sent := None, 0, [];
      pendingByType, lastSequenceByType, delivered, log := map[], map[], [], [];
    }

    method Send(header: bytes, payload: bytes, peer: Peer)
      modifies this`sent
      ensures sent == old(sent) + [Sent(Outer(header, payload), peer)]
    {
      sent := sent + [Sent(header + (U16BE(|payload|) + payload), peer)];
    }

    static function Slice20(message: bytes): (did: bytes)
      ensures |did| == if |message| <= 4 then 0 else if |message| < 24 then |message| - 4 else 20
      ensures forall i :: 0 <= i < |did| ==> did[i] == message[4 + i]
    {
      if |message| <= 4 then [] else if |message| < 24 then message[4..] else message[4..24]
    }

    /**
     * `#handle`: the first CAM_ID fixes the peer for good, only data messages
     * after it are consumed, and every one of those is acknowledged first.
     */
    method Handle(message: bytes, from: Peer) returns (result: Handled)
      requires Valid()
      modifies this
      ensures Valid()
      ensures log == old(log) +
                     if Starts(message, 0xf1, 0xd0) && old(remote).Some? && |message| >= 8
                     then [Datagram(message[5], message[6] as int * 256 + message[7] as int, message[8..])]
                     else []
      ensures remote == if Starts(message, 0xf1, 0x42) && old(remote).None? then Some(from) else old(remote)
      ensures Starts(message, 0xf1, 0x41) ==>
                sent == old(sent) +
                  if |message| >= 16 && DecodeDid(Slice20(message)) == p2pDid && EncodeDid(p2pDid).Some?
                  then [Sent([0xf1, 0x41, 0, 23] + EncodeDid(p2pDid).value + [0, 0, 0], from)] else []
      ensures Starts(message, 0xf1, 0x42) ==>
                sent == old(sent) + if old(remote).None? then [Sent([0xf1, 0xe0, 0, 0], from)] else []
      ensures Starts(message, 0xf1, 0xd0) ==>
                sent == old(sent) +
                  if old(remote).Some? && |message| >= 8
                  then [Sent([0xf1, 0xd1, 0, 6, message[4], message[5], 0, 1, message[6], message[7]],
                             old(remote).value)]
                  else []
      ensures !Starts(message, 0xf1, 0x41) && !Starts(message, 0xf1, 0x42) && !Starts(message, 0xf1, 0xd0) ==>
                sent == old(sent)
      ensures sequence == old(sequence)
      ensures result == Returned(true) <==> old(remote).None? && Starts(message, 0xf1, 0x42)
    {
      hide Run, Deliveries, Completes, Consume, Consumes, Scan, EncodeDid, DecodeDid, Outer, CommandMessage;
      if |message| >= 8 {
        AcknowledgementBytes(message);
        ReceivedBytes(message);
      }
      if Has(message, LOCAL_LOOKUP) {
        var did := Slice20(message);
        if |did| < 12 {
          return Threw;
        }
        if DecodeDid(did) == p2pDid {
          var own := EncodeDid(p2pDid);
          if own.None? {
            return Threw;
          }
          ReplyBytes(own.value);
          Send(CHECK, own.value + Zeros(3), from);
        }
        return Returned(false);
      }
      if Has(message, CAM_ID) {
        if remote.Some? {
          return Returned(false);
        }
        remote := Some(from);
        ReplyBytes(Zeros(20));
        Send(PING, [], from);
        return Returned(true);
      }
      if Has(message, DATA) && remote.Some? {
        if |message| < 8 {
          return Threw;
        }
        AcknowledgementIsOuter(message);
        Send(ACK, message[4..6] + (U16BE(1) + U16BE(ReadU16BE(message, 6))), remote.value);
        Appended(KeepPending, log, Received(message), 0);
        var threw := ConsumeData(message[8..], ReadU16BE(message, 6), message[5]);
        log := log + [Received(message)];
        return if threw then Threw else Returned(false);
      }
      return Returned(false);
    }

    method ConsumeData(data: bytes, sequence: Sequence, kind: byte) returns (threw: bool)
      modifies this`pendingByType, this`lastSequenceByType, this`delivered
      ensures State() == Consume(KeepPending, old(State()), Datagram(kind, sequence, data))
      ensures delivered == old(delivered) + Tagged(kind, ScanOf(old(State()), Datagram(kind, sequence, data)).frames)
      ensures Consumes(KeepPending, old(State()), State(), ScanOf(old(State()), Datagram(kind, sequence, data)).frames,
                       Datagram(kind, sequence, data))
      ensures threw == ScanOf(old(State()), Datagram(kind, sequence, data)).oversize
    {
      hide Scan, Tagged, ScannedSoFar, HasHeader, DeclaredSize, Consumes;
      ConsumeConsumes(KeepPending, State(), Datagram(kind, sequence, data));
      if kind in lastSequenceByType && Gap(lastSequenceByType[kind], sequence) > 1 {
        pendingByType := pendingByType - {kind};
      }
      lastSequenceByType := lastSequenceByType[kind := sequence];
      var pending := (if kind in pendingByType then pendingByType[kind] else []) + data;
      ghost var input, kept, last := pending, pendingByType, lastSequenceByType;
      assert input == Held(old(State()), Datagram(kind, sequence, data)) + data;
      ghost var done: seq<Frame> := [];
      ScanStarts(input, kind);
      assert old(delivered) + [] == old(delivered);
      while HasHeader(pending)
        invariant ScannedSoFar(input, done, pending)
        invariant delivered == old(delivered) + Tagged(kind, done)
        invariant pendingByType == kept && lastSequenceByType == last
        decreases |pending|
      {
        SizeDecides(pending);
        var size := DeclaredSize(pending);
        if size > MAX_PAYLOAD {
          NoMore(input, done, pending);
          return true;
        }
        if |pending| < HEADER + size {
          break;
        }
        var frame := First(pending);
        OneMore(input, done, pending);
        TaggedAppend(kind, done, frame);
        done := done + [frame];
        delivered := delivered + [Delivery(kind, frame)];
        pending := pending[HEADER + size..];
      }
      if !HasHeader(pending) {
        HeaderDecides(pending);
      } else {
        SizeDecides(pending);
      }
      NoMore(input, done, pending);
      pendingByType := pendingByType[kind := pending];
      threw := false;
    }

    /** `#sendCommand`: refuses without a peer, otherwise uses the next sequence number. */
    method SendCommand(command: nat, payload: bytes) returns (refused: bool)
      modifies this`sent, this`sequence
      ensures refused == remote.None?
      ensures refused ==> sent == old(sent) && sequence == old(sequence)
      ensures !refused ==>
                && sequence == old(sequence) + 1
                && sent == old(sent) + [Sent(CommandMessage(old(sequence), command, payload), remote.value)]
                && CommandMessage(old(sequence), command, payload) ==
                   [0xf1, 0xd0, (|payload| + 10) / 256 % 256, (|payload| + 10) % 256,
                    0xd1, 0, old(sequence) / 256 % 256, old(sequence) % 256,
                    0x58, 0x5a, 0x59, 0x48, command % 256, command / 256 % 256] + payload
    {
      CommandBytes(sequence, command, payload);
      if remote.None? {
        return true;
      }
      var header := DATA_HEADER + (U16BE(sequence) + (MAGIC + U16LE(command)));
      sequence := sequence + 1;
      Send(DATA, header + payload, remote.value);
      refused := false;
    }
  }

  // Commands

  /** What `#sendCommand` puts on the wire. */
  function CommandMessage(sequence: nat, command: nat, payload: bytes): bytes {
    Outer(DATA, DATA_HEADER + (U16BE(sequence) + (MAGIC + U16LE(command))) + payload)
  }

  /** AES-128-ECB under the session's key, as a pair of functions. */
  datatype Cipher = Cipher(encrypt: bytes -> bytes, decrypt: bytes -> bytes)

  /** All that is used of it: on whole blocks it keeps the length and can be undone. */
  ghost predicate Sound(c: Cipher) {
    forall p: bytes :: |p| % 16 == 0 ==> |c.encrypt(p)| == |p| && c.decrypt(c.encrypt(p)) == p
  }

  /** The value, NUL-padded to a positive number of blocks. */
  function Blocks(value: bytes): (plain: bytes)
    ensures |plain| % 16 == 0 && |plain| >= 16 && |plain| >= |value|
    ensures |plain| == 16 || |plain| < |value| + 16
    ensures plain[..|value|] == value && forall i :: |value| <= i < |plain| ==> plain[i] == 0
  {
    var size := if |value| <= 16 then 16 else (|value| + 15) / 16 * 16;
    value + Zeros(size - |value|)
  }

  /** `encryptedPayload`; `writeUInt16LE` refuses lengths it cannot hold. */
  function EncryptedPayload(value: bytes, channel: int, c: Cipher): Option<bytes> {
    var encrypted := c.encrypt(Blocks(value));
    if |encrypted| >= 0x1_0000 then None
    else Some(U16LE(|encrypted|) + ([0, 0] + (U16LE(1) + [channel % 256, 1, 0, 0])) + encrypted)
  }

  /** An encrypted payload, byte by byte: length, two zeros, one, channel, sign code, two zeros, the cipher text. */
  lemma PayloadBytes(value: bytes, channel: int, c: Cipher)
    requires EncryptedPayload(value, channel, c).Some?
    ensures var encrypted := c.encrypt(Blocks(value));
            EncryptedPayload(value, channel, c).value ==
            [|encrypted| % 256, |encrypted| / 256, 0, 0, 1, 0, channel % 256, 1, 0, 0] + encrypted
    ensures VoidPayload(channel) == [0, 0, 0, 0, 1, 0, channel % 256, 0, 0, 0]
  {
    var n := |c.encrypt(Blocks(value))|;
    SixteenBits(n);
    SixteenBits(1);
    hide Blocks, U16LE;
    assert n < 0x1_0000 && n / 256 % 256 == n / 256;
  }

  /** What is not signed, empty or no whole number of blocks is taken as it is. */
  lemma UnsignedStaysClear(f: Frame, c: Cipher)
    requires |f.header| == 16
    ensures f.header[13] == 0 || f.payload == [] || |f.payload| % 16 != 0 ==> ClearPayload(f, c) == f.payload
    ensures f.header[13] > 0 && f.payload != [] && |f.payload| % 16 == 0 ==> ClearPayload(f, c) == c.decrypt(f.payload)
  {
  }

  /** A command body is refused exactly when its padded form exceeds 65520 bytes. */
  lemma LongValuesAreRefused(value: bytes, channel: int, c: Cipher)
    requires Sound(c)
    ensures EncryptedPayload(value, channel, c).None? <==> |Blocks(value)| > 65520
  {
    assert |c.encrypt(Blocks(value))| == |Blocks(value)|;
  }

  /** `voidPayload`. */
  function VoidPayload(channel: int): bytes {
    [0, 0, 0, 0, 1, 0, channel % 256, 0, 0, 0]
  }

  /** The clear payload `#handleFrame` works with. */
  function ClearPayload(f: Frame, c: Cipher): bytes
    requires |f.header| == HEADER
  {
    if f.SignCode() > 0 && |f.payload| > 0 && |f.payload| % 16 == 0 then c.decrypt(f.payload) else f.payload
  }

  /** The text before the first NUL, as `parseJsonBuffer` cuts it. */
  function CutAtNul(value: bytes): bytes {
    if value == [] || value[0] == 0 then [] else [value[0]] + CutAtNul(value[1..])
  }

  lemma {:induction false} CutsPadding(value: bytes, padding: bytes)
    requires 0 !in value && (padding != [] ==> padding[0] == 0)
    ensures CutAtNul(value + padding) == value
  {
    if value == [] {
    } else {
      assert (value + padding)[0] == value[0] && (value + padding)[1..] == value[1..] + padding;
      CutsPadding(value[1..], padding);
      assert value == [value[0]] + value[1..];
    }
  }

  /** The frame a command becomes: ten payload bytes complete the header. */
  function CommandFrame(command: nat, payload: bytes): Frame
    requires |payload| >= 10
  {
    Frame(MAGIC + U16LE(command) + payload[..10], payload[10..])
  }

  /** Any command message is received as its own datagram, under its own number. */
  lemma CommandIsReceived(sequence: nat, command: nat, payload: bytes)
    requires |payload| >= 10
    ensures var m := CommandMessage(sequence, command, payload);
            && Has(m, DATA) && |m| >= 8
            && Received(m) == Datagram(0, sequence % 0x1_0000, CommandFrame(command, payload).Raw())
  {
    var m := CommandMessage(sequence, command, payload);
    var body := MAGIC + U16LE(command) + payload;
    assert m == [0xf1, 0xd0] + U16BE(4 + |body|) + [0xd1, 0] + U16BE(sequence) + body;
    assert m[8..] == body;
    assert payload == payload[..10] + payload[10..];
  }

  lemma LittleEndian(v: nat)
    requires v < 0x1_0000
    ensures ReadU16LE(U16LE(v), 0) == v
  {
  }

  /** What the header of an encrypted command says. */
  lemma EncryptedHeader(command: nat, channel: int, encrypted: bytes)
    requires command < 0x1_0000 && |encrypted| < 0x1_0000
    ensures var payload := U16LE(|encrypted|) + ([0, 0] + (U16LE(1) + [channel % 256, 1, 0, 0])) + encrypted;
            var f := CommandFrame(command, payload);
            && |payload| == 10 + |encrypted|
            && WellFormed(f) && f.payload == encrypted
            && f.Command() == command && f.Channel() == channel % 256 && f.SignCode() == 1 && !f.IsResult()
  {
    var n := |encrypted|;
    var payload := U16LE(n) + ([0, 0] + (U16LE(1) + [channel % 256, 1, 0, 0])) + encrypted;
    var f := CommandFrame(command, payload);
    assert f.header == MAGIC + U16LE(command) + (U16LE(n) + ([0, 0] + (U16LE(1) + [channel % 256, 1, 0, 0])));
    assert f.payload == encrypted;
    LittleEndian(n);
    LittleEndian(command);
    var h := f.header;
    assert h[4] == U16LE(command)[0] && h[5] == U16LE(command)[1];
    assert h[6] == U16LE(n)[0] && h[7] == U16LE(n)[1] && h[8] == 0 && h[9] == 0;
  }

  /** A datagram that is one whole frame, met with nothing held, completes exactly that frame. */
  lemma FrameArrives(policy: Policy, b: Buffers, d: Datagram, f: Frame)
    requires WellFormed(f) && d.data == f.Raw() && Held(b, d) == []
    ensures ScanOf(b, d).frames == [f] && Pending(Consume(policy, b, d), d.kind) == []
  {
    hide Scan, WellFormed;
    Nothing(policy, 0);
    FrameFirst(f, []);
    assert f.header + (f.payload + []) == f.Raw();
    assert Held(b, d) + d.data == d.data;
  }

  lemma DecryptsToValue(f: Frame, c: Cipher, value: bytes)
    requires Sound(c) && |f.header| == HEADER && f.SignCode() == 1
    requires f.payload == c.encrypt(Blocks(value))
    ensures ClearPayload(f, c) == Blocks(value)
    ensures 0 !in value ==> CutAtNul(ClearPayload(f, c)) == value
  {
    hide CutAtNul;
    var plain := Blocks(value);
    assert |c.encrypt(plain)| == |plain|;
    if 0 !in value {
      CutsPadding(value, plain[|value|..]);
      assert plain == value + plain[|value|..];
    }
  }

  /**
   * Command round trip: whatever was consumed before, as long as nothing is
   * held for type 0 or its number jumps, a session that receives the message
   * of an encrypted command completes exactly one frame, holding the same command, channel
   * and sign code, which is no result and decrypts to the padded value. For a
   * NUL-free value the cut at the first NUL gives the value back.
   */
  lemma {:induction false} CommandRoundTrip(
    policy: Policy, b: Buffers, c: Cipher, value: bytes, channel: int, sequence: nat, command: nat)
    requires Sound(c)
    requires command < 0x1_0000 && |Blocks(value)| < 0x1_0000
    requires Pending(b, 0) == [] || Lost(b.last, 0, sequence % 0x1_0000)
    ensures EncryptedPayload(value, channel, c).Some?
    ensures var m := CommandMessage(sequence, command, EncryptedPayload(value, channel, c).value);
            && Has(m, DATA) && |m| >= 8
            && Received(m).kind == 0 && Received(m).sequence == sequence % 0x1_0000
            && var frames := ScanOf(b, Received(m)).frames;
            && |frames| == 1
            && frames[0].Command() == command
            && frames[0].Channel() == channel % 256
            && frames[0].SignCode() == 1
            && !frames[0].IsResult()
            && ClearPayload(frames[0], c) == Blocks(value)
            && (0 !in value ==> CutAtNul(ClearPayload(frames[0], c)) == value)
            && Pending(Consume(policy, b, Received(m)), 0) == []
  {
    var encrypted := c.encrypt(Blocks(value));
    assert |encrypted| == |Blocks(value)|;
    var payload := EncryptedPayload(value, channel, c).value;
    var d := Received(CommandMessage(sequence, command, payload));
    var f := CommandFrame(command, payload);
    hide Scan, ScanOf, Consume, CommandFrame, CommandMessage, Blocks, CutAtNul, ClearPayload, WellFormed, ReadU16LE;
    hide Gap, Lost;
    EncryptedHeader(command, channel, encrypted);
    CommandIsReceived(sequence, command, payload);
    JumpsIffNumbersSay(b.last, d);
    DecryptsToValue(f, c, value);
    FrameArrives(policy, b, d, f);
  }
}
