/**
 * The MCS wire format: `[version] ([tag] [varint length] [body])*`.
 *
 * `ParseStream` reads a whole byte stream at once and says where a receiver
 * stands after it; `Encode` is the layout `PushClient` writes.
 */
module McsWire {
  import opened Bytes

  const MAX_BUFFER_BYTES: nat := 4 * 1024 * 1024
  const MAX_FRAME_BYTES: nat := 2 * 1024 * 1024
  const MIN_VERSION: int := 38
  const MCS_VERSION: byte := 41

  // Base 128 varints

  datatype Varint = Done(value: nat, read: nat) | Incomplete | Malformed

  /** Read a varint of at most ten bytes, `seen` of which came before `data`. */
  function ReadVarint(data: bytes, seen: nat): (r: Varint)
    requires seen < 10
    ensures r.Done? ==> 1 <= r.read <= |data| && seen + r.read <= 10
    ensures r.Incomplete? ==> seen + |data| < 10
    decreases 10 - seen
  {
    if data == [] then Incomplete
    else if data[0] < 128 then Done(data[0], 1)
    else if seen == 9 then Malformed
    else
      match ReadVarint(data[1..], seen + 1)
      case Done(v, n) => Done(data[0] - 128 + 128 * v, n + 1)
      case other => other
  }

  /** The number that groups of seven bits stand for, the lowest group first. */
  function Groups(data: bytes): nat {
    if data == [] then 0 else data[0] % 128 + 128 * Groups(data[1..])
  }

  /** Every byte of `data[..n]` announces another one. */
  predicate GoesOn(data: bytes, n: nat)
    requires n <= |data|
  {
    forall i :: 0 <= i < n ==> data[i] >= 128
  }

  /**
   * What reading a varint finds out: its value are the low seven bits of its
   * bytes, and it ends at the first byte that announces no other one. It is
   * incomplete exactly if there is no such byte and the limit of ten is not
   * reached, and malformed exactly if there is none among the ten.
   */
  lemma {:induction false} VarintMeans(data: bytes, seen: nat)
    requires seen < 10
    ensures match ReadVarint(data, seen)
            case Done(v, n) =>
              1 <= n <= |data| && GoesOn(data, n - 1) && data[n - 1] < 128 && v == Groups(data[..n])
            case Incomplete => seen + |data| < 10 && GoesOn(data, |data|)
            case Malformed => seen + |data| >= 10 && GoesOn(data, 10 - seen)
    decreases 10 - seen
  {
    if data == [] || data[0] < 128 || seen == 9 {
    } else {
      var rest := data[1..];
      VarintMeans(rest, seen + 1);
      if ReadVarint(rest, seen + 1).Done? {
        var n := ReadVarint(rest, seen + 1).read;
        assert data[..n + 1][1..] == rest[..n];
      }
      assert forall i :: 0 < i < |data| ==> data[i] == rest[i - 1];
    }
  }

  /** The reader's `int32`: the low 32 bits, as two's complement. */
  function Int32(v: nat): int {
    var low := v % 0x1_0000_0000;
    if low < 0x8000_0000 then low else low - 0x1_0000_0000
  }

  function EncodeVarint(n: nat): (r: bytes)
    ensures |r| >= 1
  {
    if n < 128 then [n] else [n % 128 + 128] + EncodeVarint(n / 128)
  }

  lemma {:induction false} VarintRoundTrip(n: nat, seen: nat, rest: bytes)
    requires seen + |EncodeVarint(n)| <= 10
    ensures ReadVarint(EncodeVarint(n) + rest, seen) == Done(n, |EncodeVarint(n)|)
  {
    var data := EncodeVarint(n) + rest;
    if n < 128 {
      assert data[0] == n;
    } else {
      var more := EncodeVarint(n / 128);
      assert data[0] == n % 128 + 128;
      assert data[1..] == more + rest;
      VarintRoundTrip(n / 128, seen + 1, rest);
    }
  }

  lemma {:induction false} VarintFits(n: nat)
    requires n < 0x8000_0000
    ensures |EncodeVarint(n)| <= 5
  {
    var n1 := n / 128;
    var n2 := n1 / 128;
    var n3 := n2 / 128;
    var n4 := n3 / 128;
    assert n4 < 128;
    assert |EncodeVarint(n4)| == 1;
    assert |EncodeVarint(n3)| <= 2;
    assert |EncodeVarint(n2)| <= 3;
    assert |EncodeVarint(n1)| <= 4;
  }

  /** One byte of a varint. */
  lemma VarintStep(first: byte, rest: bytes, seen: nat)
    requires seen < 10
    ensures first < 128 ==> ReadVarint([first] + rest, seen) == Done(first, 1)
    ensures first >= 128 && seen == 9 ==> ReadVarint([first] + rest, seen) == Malformed
    ensures first >= 128 && seen < 9 ==>
              ReadVarint([first] + rest, seen) == match ReadVarint(rest, seen + 1)
                                                  case Done(v, n) => Done(first - 128 + 128 * v, n + 1)
                                                  case other => other
  {
    assert ([first] + rest)[1..] == rest;
  }

  /** A decided varint stays as it was read when more bytes arrive. */
  lemma {:induction false} VarintStable(a: bytes, b: bytes, seen: nat)
    requires seen < 10
    requires !ReadVarint(a, seen).Incomplete?
    ensures ReadVarint(a + b, seen) == ReadVarint(a, seen)
    decreases 10 - seen
  {
    NothingIsIncomplete(seen);
    hide ReadVarint;
    var first, rest := a[0], a[1..];
    assert a == [first] + rest;
    assert a + b == [first] + (rest + b);
    VarintStep(first, rest, seen);
    VarintStep(first, rest + b, seen);
    if first < 128 || seen == 9 {
    } else {
      VarintStable(rest, b, seen + 1);
    }
  }

  lemma NothingIsIncomplete(seen: nat)
    requires seen < 10
    ensures ReadVarint([], seen) == Incomplete
  {
  }

  // Streams

  datatype State = VersionTagAndSize | TagAndSize | Size | ProtoBytes

  datatype Frame = Frame(tag: int, body: bytes)

  /** The five fields of the receiver. */
  datatype Fields = Fields(data: bytes, state: State, tag: int, size: int, sizePacketSoFar: nat)

  datatype Error = WrongVersion | BadSize | BadVarint

  /** What reading some bytes delivers, and where it ends. */
  datatype Outcome =
    | Waiting(frames: seq<Frame>, fields: Fields)
    | Failed(frames: seq<Frame>, error: Error)

  function Deliver(frame: Frame, rest: Outcome): Outcome {
    rest.(frames := [frame] + rest.frames)
  }

  /** From the start of a connection. */
  function ParseStream(data: bytes): Outcome {
    if |data| < 3 then Waiting([], Fields(data, VersionTagAndSize, 0, 0, 0))
    else if Int8(data[0]) < MIN_VERSION then Failed([], WrongVersion)
    else ParseFrames(data[1..], 0, 0)
  }

  /** From a frame boundary; `tag` and `size` are those of the frame before. */
  function ParseFrames(data: bytes, tag: int, size: int): Outcome
    decreases |data|, 0
  {
    if |data| < 2 then Waiting([], Fields(data, TagAndSize, tag, size, 0))
    else ParseSize(data[1..], Int8(data[0]), size)
  }

  /** From a length; `size` is that of the frame before. */
  function ParseSize(data: bytes, tag: int, size: int): Outcome
    decreases |data|, 2
  {
    match ReadVarint(data, 0)
    case Incomplete => Waiting([], Fields(data, Size, tag, size, |data|))
    case Malformed => Failed([], BadVarint)
    case Done(v, n) =>
      if Int32(v) < 0 || Int32(v) > MAX_FRAME_BYTES then Failed([], BadSize)
      else ParseBody(data[n..], tag, Int32(v))
  }

  /** From a body of `size` bytes. */
  function ParseBody(data: bytes, tag: int, size: nat): Outcome
    decreases |data|, 1
  {
    if |data| < size then Waiting([], Fields(data, ProtoBytes, tag, size, 0))
    else Deliver(Frame(tag, data[..size]), ParseFrames(data[size..], tag, size))
  }

  /** Reading on from the fields a receiver holds. */
  function Resume(f: Fields): Outcome
    requires f.state == ProtoBytes ==> f.size >= 0
  {
    match f.state
    case VersionTagAndSize => ParseStream(f.data)
    case TagAndSize => ParseFrames(f.data, f.tag, f.size)
    case Size => ParseSize(f.data, f.tag, f.size)
    case ProtoBytes => ParseBody(f.data, f.tag, f.size)
  }

  /** What a receiver waiting for more bytes looks like. */
  predicate Quiescent(f: Fields) {
    match f.state
    case VersionTagAndSize => |f.data| < 3 && f.tag == f.size == 0 && f.sizePacketSoFar == 0
    case TagAndSize => |f.data| < 2 && f.sizePacketSoFar == 0
    case Size => f.data != [] && ReadVarint(f.data, 0).Incomplete? && f.sizePacketSoFar == |f.data|
    case ProtoBytes => |f.data| < f.size <= MAX_FRAME_BYTES && f.sizePacketSoFar == 0
  }

  /**
   * Between chunks a receiver holds less than one frame, so chunks of up to
   * 2 MiB never run into the 4 MiB buffer limit.
   */
  lemma ResidueIsSmall(f: Fields, chunk: bytes)
    requires Quiescent(f) && |chunk| <= 2 * 1024 * 1024
    ensures |f.data| < 2 * 1024 * 1024 && |f.data| + |chunk| <= MAX_BUFFER_BYTES
  {
  }

  lemma {:induction false} FramesRest(data: bytes, tag: int, size: int)
    ensures ParseFrames(data, tag, size).Waiting? ==> Quiescent(ParseFrames(data, tag, size).fields)
    decreases |data|, 0
  {
    if |data| >= 2 {
      SizeRests(data[1..], Int8(data[0]), size);
    }
  }

  lemma {:induction false} SizeRests(data: bytes, tag: int, size: int)
    requires data != []
    ensures ParseSize(data, tag, size).Waiting? ==> Quiescent(ParseSize(data, tag, size).fields)
    decreases |data|, 2
  {
    match ReadVarint(data, 0)
    case Done(v, n) =>
      if 0 <= Int32(v) <= MAX_FRAME_BYTES {
        BodyRests(data[n..], tag, Int32(v));
      }
    case _ =>
  }

  lemma {:induction false} BodyRests(data: bytes, tag: int, size: nat)
    requires size <= MAX_FRAME_BYTES
    ensures ParseBody(data, tag, size).Waiting? ==> Quiescent(ParseBody(data, tag, size).fields)
    decreases |data|, 1
  {
    if |data| >= size {
      FramesRest(data[size..], tag, size);
    }
  }

  /** Reading a whole stream ends in a quiescent receiver, unless it fails. */
  lemma StreamRests(data: bytes)
    ensures ParseStream(data).Waiting? ==> Quiescent(ParseStream(data).fields)
  {
    if |data| >= 3 {
      FramesRest(data[1..], 0, 0);
    }
  }

  /** `whole` is what `first` delivered, continued with `more` from where it stood. */
  ghost predicate Continues(whole: Outcome, first: Outcome, more: bytes) {
    match first
    case Failed(_, _) => whole == first
    case Waiting(frames, f) =>
      && (f.state == ProtoBytes ==> f.size >= 0)
      && var after := Resume(f.(data := f.data + more));
         whole == after.(frames := frames + after.frames)
  }

  lemma {:induction false} FramesContinue(a: bytes, b: bytes, tag: int, size: int)
    ensures Continues(ParseFrames(a + b, tag, size), ParseFrames(a, tag, size), b)
    decreases |a|, 0
  {
    if |a| >= 2 {
      assert (a + b)[0] == a[0] && (a + b)[1..] == a[1..] + b;
      SizeContinues(a[1..], b, Int8(a[0]), size);
    }
  }

  lemma {:induction false} SizeContinues(a: bytes, b: bytes, tag: int, size: int)
    ensures Continues(ParseSize(a + b, tag, size), ParseSize(a, tag, size), b)
    decreases |a|, 2
  {
    hide ReadVarint, ParseBody, ParseSize, Continues;
    SizeStep(a, tag, size);
    SizeStep(a + b, tag, size);
    match ReadVarint(a, 0)
    case Incomplete => UnreadSizeContinues(a, b, tag, size);
    case Malformed =>
      VarintStable(a, b, 0);
      FailureContinues(Failed([], BadVarint), b);
    case Done(v, n) =>
      VarintStable(a, b, 0);
      if 0 <= Int32(v) <= MAX_FRAME_BYTES {
        assert (a + b)[n..] == a[n..] + b;
        BodyContinues(a[n..], b, tag, Int32(v));
      } else {
        FailureContinues(Failed([], BadSize), b);
      }
  }

  lemma SizeStep(data: bytes, tag: int, size: int)
    ensures ParseSize(data, tag, size) ==
            match ReadVarint(data, 0)
            case Incomplete => Waiting([], Fields(data, Size, tag, size, |data|))
            case Malformed => Failed([], BadVarint)
            case Done(v, n) =>
              if Int32(v) < 0 || Int32(v) > MAX_FRAME_BYTES then Failed([], BadSize)
              else ParseBody(data[n..], tag, Int32(v))
  {
    hide ReadVarint, ParseBody;
  }

  lemma FailureContinues(o: Outcome, more: bytes)
    requires o.Failed?
    ensures Continues(o, o, more)
  {
  }

  lemma UnreadSizeContinues(a: bytes, b: bytes, tag: int, size: int)
    requires ReadVarint(a, 0).Incomplete?
    ensures Continues(ParseSize(a + b, tag, size), ParseSize(a, tag, size), b)
  {
    hide ParseSize, ReadVarint;
    SizeStep(a, tag, size);
    var after := ParseSize(a + b, tag, size);
    assert [] + after.frames == after.frames;
  }

  lemma {:induction false} BodyContinues(a: bytes, b: bytes, tag: int, size: nat)
    ensures Continues(ParseBody(a + b, tag, size), ParseBody(a, tag, size), b)
    decreases |a|, 1
  {
    if |a| >= size {
      assert (a + b)[..size] == a[..size];
      assert (a + b)[size..] == a[size..] + b;
      FramesContinue(a[size..], b, tag, size);
    }
  }

  /**
   * Chunk independence: a receiver that stopped after `a` and then gets `b`
   * delivers the frames, keeps the fields or fails exactly as one that reads
   * `a + b` at once; after an error nothing more is delivered.
   */
  lemma StreamContinues(a: bytes, b: bytes)
    ensures Continues(ParseStream(a + b), ParseStream(a), b)
  {
    if |a| >= 3 {
      assert (a + b)[0] == a[0] && (a + b)[1..] == a[1..] + b;
      if Int8(a[0]) >= MIN_VERSION {
        FramesContinue(a[1..], b, 0, 0);
      }
    }
  }

  // Chunks

  lemma ResumeRests(f: Fields, more: bytes)
    requires Quiescent(f)
    ensures var after := Resume(f.(data := f.data + more));
            after.Waiting? ==> Quiescent(after.fields)
  {
    hide ParseFrames, ParseSize, ParseBody, ParseStream, ReadVarint;
    var data := f.data + more;
    match f.state
    case VersionTagAndSize => StreamRests(data);
    case TagAndSize => FramesRest(data, f.tag, f.size);
    case Size => SizeRests(data, f.tag, f.size);
    case ProtoBytes => BodyRests(data, f.tag, f.size);
  }

  /** A receiver fed chunk by chunk, reading on from its fields each time. */
  function AfterChunks(chunks: seq<bytes>): (o: Outcome)
    ensures o.Waiting? ==> Quiescent(o.fields)
  {
    if chunks == [] then ParseStream([])
    else
      var before, last := AfterChunks(chunks[..|chunks| - 1]), chunks[|chunks| - 1];
      match before
      case Failed(_, _) => before
      case Waiting(frames, f) =>
        ResumeRests(f, last);
        var after := Resume(f.(data := f.data + last));
        after.(frames := frames + after.frames)
  }

  /** Every cut of a stream into chunks gives the frames, fields and error of the whole stream. */
  lemma {:induction false} ChunksDoNotMatter(chunks: seq<bytes>)
    ensures AfterChunks(chunks) == ParseStream(Flatten(chunks))
  {
    hide ParseStream, ParseFrames, ParseSize, ParseBody, ReadVarint;
    if chunks == [] {
    } else {
      var before, last := chunks[..|chunks| - 1], chunks[|chunks| - 1];
      ChunksDoNotMatter(before);
      FlattenAppend(before, last);
      assert before + [last] == chunks;
      StreamContinues(Flatten(before), last);
    }
  }

  // What the client writes

  function EncodeFrame(f: Frame): bytes
    requires 0 <= f.tag < 128
  {
    [f.tag] + (EncodeVarint(|f.body|) + f.body)
  }

  ghost predicate Sendable(frames: seq<Frame>) {
    forall f :: f in frames ==> 0 <= f.tag < 128 && |f.body| <= 2 * 1024 * 1024
  }

  function Encode(frames: seq<Frame>): bytes
    requires forall f :: f in frames ==> 0 <= f.tag < 128
  {
    if frames == [] then [] else EncodeFrame(frames[0]) + Encode(frames[1..])
  }

  lemma SizeRoundTrip(body: bytes, after: bytes, tag: int, size: int)
    requires |body| <= 2 * 1024 * 1024
    ensures ParseSize(EncodeVarint(|body|) + (body + after), tag, size) ==
            Deliver(Frame(tag, body), ParseFrames(after, tag, |body|))
  {
    hide ParseFrames, ParseSize, ReadVarint, EncodeVarint;
    SizeStep(EncodeVarint(|body|) + (body + after), tag, size);
    var n := |body|;
    VarintFits(n);
    VarintRoundTrip(n, 0, body + after);
    assert (EncodeVarint(n) + (body + after))[|EncodeVarint(n)|..] == body + after;
    assert (body + after)[..n] == body && (body + after)[n..] == after;
  }

  /** One frame, then whatever follows. */
  lemma FrameRoundTrip(f: Frame, after: bytes, tag: int, size: int)
    requires 0 <= f.tag < 128 && |f.body| <= 2 * 1024 * 1024
    ensures ParseFrames(EncodeFrame(f) + after, tag, size) == Deliver(f, ParseFrames(after, f.tag, |f.body|))
  {
    hide ParseSize;
    SizeRoundTrip(f.body, after, f.tag, size);
    var data := EncodeFrame(f) + after;
    assert data[0] == f.tag && data[1..] == EncodeVarint(|f.body|) + (f.body + after);
  }

  lemma {:induction false} FramesRoundTrip(frames: seq<Frame>, tag: int, size: int)
    requires Sendable(frames)
    ensures ParseFrames(Encode(frames), tag, size).Waiting?
    ensures ParseFrames(Encode(frames), tag, size).frames == frames
    ensures ParseFrames(Encode(frames), tag, size).fields.data == []
    ensures ParseFrames(Encode(frames), tag, size).fields.state == TagAndSize
  {
    if frames == [] {
    } else {
      var f := frames[0];
      FrameRoundTrip(f, Encode(frames[1..]), tag, size);
      FramesRoundTrip(frames[1..], f.tag, |f.body|);
      assert frames == [f] + frames[1..];
    }
  }

  /** The stream one connection carries: a version byte, then frames. */
  function EncodeStream(frames: seq<Frame>): bytes
    requires forall f :: f in frames ==> 0 <= f.tag < 128
  {
    [MCS_VERSION] + Encode(frames)
  }

  /**
   * Every non-empty list of frames the client can write is read back exactly,
   * with nothing left over.
   */
  lemma StreamRoundTrip(frames: seq<Frame>)
    requires Sendable(frames) && frames != []
    ensures EncodeStream(frames) == [41] + Encode(frames)
    ensures ParseStream(EncodeStream(frames)).Waiting?
    ensures ParseStream(EncodeStream(frames)).frames == frames
    ensures ParseStream(EncodeStream(frames)).fields.data == []
    ensures ParseStream(EncodeStream(frames)).fields.state == TagAndSize
  {
    var data := EncodeStream(frames);
    assert data[1..] == Encode(frames);
    assert |Encode(frames)| >= |EncodeFrame(frames[0])| >= 2;
    FramesRoundTrip(frames, 0, 0);
  }

  /** However the client's stream is cut into chunks, its frames arrive exactly. */
  lemma ChunkedRoundTrip(frames: seq<Frame>, chunks: seq<bytes>)
    requires Sendable(frames) && frames != []
    requires Flatten(chunks) == EncodeStream(frames)
    ensures AfterChunks(chunks).Waiting?
    ensures AfterChunks(chunks).frames == frames
    ensures AfterChunks(chunks).fields.data == []
  {
    hide ParseStream, AfterChunks, EncodeStream;
    ChunksDoNotMatter(chunks);
    StreamRoundTrip(frames);
  }

  // What is refused

  /** The signed readings of a byte and of a length. */
  lemma SignedReadings(b: byte, v: nat)
    ensures -128 <= Int8(b) < 128 && (Int8(b) == b as int || Int8(b) == b as int - 256)
    ensures -2147483648 <= Int32(v) < 2147483648 && (v - Int32(v)) % 4294967296 == 0
  {
  }

  /** A connection is refused exactly when its first byte, read as signed, is below 38. */
  lemma VersionIsChecked(data: bytes)
    ensures |data| < 3 ==> ParseStream(data) == Waiting([], Fields(data, VersionTagAndSize, 0, 0, 0))
    ensures |data| >= 3 ==> (ParseStream(data) == Failed([], WrongVersion) <==> data[0] < 38 || data[0] >= 128)
    ensures |data| >= 3 && 38 <= data[0] < 128 ==> ParseStream(data) == ParseFrames(data[1..], 0, 0)
  {
    if |data| >= 3 && data[0] >= 38 && data[0] < 128 {
      NoVersionAgain(data[1..], 0, 0);
    }
  }

  lemma {:induction false} NoVersionAgain(data: bytes, tag: int, size: int)
    ensures ParseFrames(data, tag, size).Failed? ==> ParseFrames(data, tag, size).error != WrongVersion
    decreases |data|
  {
    hide ParseBody, ReadVarint;
    if |data| < 2 {
    } else {
      SizeStep(data[1..], Int8(data[0]), size);
      match ReadVarint(data[1..], 0)
      case Done(v, n) =>
        if 0 <= Int32(v) <= MAX_FRAME_BYTES {
          BodyStep(data[1..][n..], Int8(data[0]), Int32(v));
          if Int32(v) <= |data[1..][n..]| {
            NoVersionAgain(data[1..][n..][Int32(v)..], Int8(data[0]), Int32(v));
          }
        }
      case _ =>
    }
  }

  lemma BodyStep(data: bytes, tag: int, size: nat)
    ensures ParseBody(data, tag, size) ==
            if |data| < size then Waiting([], Fields(data, ProtoBytes, tag, size, 0))
            else Deliver(Frame(tag, data[..size]), ParseFrames(data[size..], tag, size))
  {
  }

  /** After any frames, a length above 2 MiB ends the stream: those frames were delivered, and nothing more is. */
  lemma {:induction false} LongFrameIsRefused(frames: seq<Frame>, tag: byte, n: nat, rest: bytes, t: int, size: int)
    requires Sendable(frames) && tag < 128 && 2 * 1024 * 1024 < n < 0x8000_0000
    ensures ParseFrames(Encode(frames) + ([tag] + (EncodeVarint(n) + rest)), t, size) == Failed(frames, BadSize)
  {
    hide ParseFrames, ParseSize, ReadVarint, EncodeVarint, EncodeFrame;
    var bad := [tag] + (EncodeVarint(n) + rest);
    if frames == [] {
      assert Encode(frames) + bad == bad;
      VarintFits(n);
      VarintRoundTrip(n, 0, rest);
      SizeStep(EncodeVarint(n) + rest, Int8(tag), size);
      assert bad[0] == tag && bad[1..] == EncodeVarint(n) + rest;
      FramesStep(bad, t, size);
    } else {
      var f := frames[0];
      assert Encode(frames) + bad == EncodeFrame(f) + (Encode(frames[1..]) + bad);
      FrameRoundTrip(f, Encode(frames[1..]) + bad, t, size);
      LongFrameIsRefused(frames[1..], tag, n, rest, f.tag, |f.body|);
      assert frames == [f] + frames[1..];
    }
  }

  lemma FramesStep(data: bytes, tag: int, size: int)
    ensures ParseFrames(data, tag, size) ==
            if |data| < 2 then Waiting([], Fields(data, TagAndSize, tag, size, 0))
            else ParseSize(data[1..], Int8(data[0]), size)
  {
  }

  /** Ten bytes that all announce another one are no length. */
  lemma {:induction false} EndlessLengthIsRefused(tag: byte, length: bytes, t: int, size: int)
    requires |length| >= 10 && forall i :: 0 <= i < 10 ==> length[i] >= 128
    ensures ParseFrames([tag] + length, t, size) == Failed([], BadVarint)
  {
    hide ParseFrames, ParseSize, ReadVarint;
    var data := [tag] + length;
    assert data[1..] == length;
    FramesStep(data, t, size);
    SizeStep(length, Int8(tag), size);
    VarintMeans(length, 0);
  }

  /** A receiver waits with part of a frame exactly as it was sent, and with its tag and length. */
  lemma {:induction false} PartialBodyWaits(tag: byte, n: nat, part: bytes, t: int, size: int)
    requires tag < 128 && |part| < n <= 2 * 1024 * 1024
    ensures ParseFrames([tag] + (EncodeVarint(n) + part), t, size) ==
            Waiting([], Fields(part, ProtoBytes, tag as int, n, 0))
  {
    hide ParseFrames, ParseSize, ParseBody, ReadVarint, EncodeVarint;
    var data := [tag] + (EncodeVarint(n) + part);
    VarintFits(n);
    VarintRoundTrip(n, 0, part);
    assert data[1..] == EncodeVarint(n) + part;
    assert (EncodeVarint(n) + part)[|EncodeVarint(n)|..] == part;
    FramesStep(data, t, size);
    SizeStep(EncodeVarint(n) + part, Int8(tag), size);
    BodyStep(part, tag as int, n);
  }
}
