/** The stateful receiver (`McsParser`): mutually recursive methods over five fields. */
module McsReceiver {
  import opened Bytes
  import opened McsWire

  /** How one call of `handleData` ends: normally, or with one of its errors. */
  datatype Handled = Accepted | BufferLimit | Rejected(error: Error)

  class McsParser {
    var data: bytes
    var state: State
    var messageTag: int
    var messageSize: int
    var sizePacketSoFar: nat
    /** The frames handed to `emitMessage`. */
    var emitted: seq<Frame>
    /** Every byte accepted since the last reset. */
    ghost var fed: bytes

    ghost function View(): Fields
      reads this
    {
      Fields(data, state, messageTag, messageSize, sizePacketSoFar)
    }

    /**
     * The receiver stands exactly where reading all its bytes at once ends,
     * and has emitted exactly the frames such a reading delivers.
     */
    ghost predicate Valid()
      reads this
    {
      ParseStream(fed) == Waiting(emitted, View())
    }

    constructor ()
      ensures Valid() && fed == []
    {
      data, state, messageTag, messageSize, sizePacketSoFar := [], VersionTagAndSize, 0, 0, 0;
      emitted, fed := [], [];
    }

    method Reset()
      modifies this
      ensures Valid() && fed == []
    {
      data, state, messageTag, messageSize, sizePacketSoFar := [], VersionTagAndSize, 0, 0, 0;
      emitted, fed := [], [];
    }

    /**
     * Feed one chunk. Whatever the chunks were, the frames emitted since the
     * last reset are those of one reading of their concatenation, up to the
     * first error. The buffer limit cannot be hit by chunks of up to 2 MiB.
     */
    method HandleData(chunk: bytes) returns (result: Handled)
      requires Valid()
      modifies this
      ensures |chunk| <= 2 * 1024 * 1024 ==> result != BufferLimit
      ensures result == BufferLimit <==> |old(data)| + |chunk| > 4 * 1024 * 1024
      ensures match result
              case Accepted => Valid() && fed == old(fed) + chunk
              case BufferLimit => View() == old(View()) && emitted == old(emitted) && fed == old(fed)
              case Rejected(error) => ParseStream(old(fed) + chunk) == Failed(emitted, error)
    {
      hide ParseStream, ParseFrames, ParseSize, ParseBody, ReadVarint;
      StreamRests(fed);
      if |chunk| <= 2 * 1024 * 1024 {
        ResidueIsSmall(View(), chunk);
      }
      if |data| + |chunk| > MAX_BUFFER_BYTES {
        return BufferLimit;
      }
      StreamContinues(fed, chunk);
      fed := fed + chunk;
      assert chunk == [] ==> data + chunk == data;
      data := data + chunk;
      var error := WaitForData();
      result := if error.None? then Accepted else Rejected(error.value);
    }

    function MinBytesNeeded(): int
      reads this
    {
      match state
      case VersionTagAndSize => 3
      case TagAndSize => 2
      case Size => sizePacketSoFar + 1
      case ProtoBytes => messageSize
    }

    /** The fields are as the methods below leave them between two of their calls. */
    ghost predicate Ready()
      reads this
    {
      && (state == ProtoBytes ==> 0 < messageSize <= MAX_FRAME_BYTES)
      && (state == Size && |data| <= sizePacketSoFar ==>
            |data| == sizePacketSoFar && ReadVarint(data, 0).Incomplete?)
      && (state != Size ==> sizePacketSoFar == 0)
      && (state == VersionTagAndSize ==> messageTag == messageSize == 0)
    }

    /** The run that ends here delivered what `expected` says, after `before`. */
    twostate predicate Performs(new error: Option<Error>, expected: Outcome)
      reads this
    {
      && fed == old(fed)
      && emitted == old(emitted) + expected.frames
      && match error
         case None => expected.Waiting? && expected.fields == View()
         case Some(e) => expected.Failed? && expected.error == e
    }

    method WaitForData() returns (error: Option<Error>)
      requires Ready()
      modifies this
      ensures Performs(error, old(Resume(View())))
      decreases |data|, if state == ProtoBytes then 8 else if state == Size && |data| <= sizePacketSoFar then 0 else 4
    {
      if |data| < MinBytesNeeded() {
        return None;
      }
      match state
      case VersionTagAndSize => error := OnVersion();
      case TagAndSize => error := OnTag();
      case Size => error := OnSize();
      case ProtoBytes => error := OnBytes();
    }

    method OnVersion() returns (error: Option<Error>)
      requires Ready() && state == VersionTagAndSize && |data| >= 3
      modifies this
      ensures Performs(error, old(ParseStream(data)))
      decreases |data|, 3
    {
      var version := Int8(data[0]);
      data := data[1..];
      if version < MIN_VERSION {
        return Some(WrongVersion);
      }
      error := OnTag();
    }

    method OnTag() returns (error: Option<Error>)
      requires |data| >= 2 && sizePacketSoFar == 0
      modifies this
      ensures Performs(error, old(ParseFrames(data, messageTag, messageSize)))
      decreases |data|, 3
    {
      messageTag := Int8(data[0]);
      data := data[1..];
      error := OnSize();
    }

    method OnSize() returns (error: Option<Error>)
      requires data != []
      modifies this
      ensures Performs(error, old(ParseSize(data, messageTag, messageSize)))
      decreases |data|, 2
    {
      var size := ReadVarint(data, 0);
      if size.Incomplete? {
        sizePacketSoFar := |data|;
        state := Size;
        error := WaitForData();
        return;
      }
      if size.Malformed? {
        return Some(BadVarint);
      }
      messageSize := Int32(size.value);
      if messageSize < 0 || messageSize > MAX_FRAME_BYTES {
        return Some(BadSize);
      }
      data := data[size.read..];
      sizePacketSoFar := 0;
      if messageSize > 0 {
        state := ProtoBytes;
        error := WaitForData();
      } else {
        error := OnBytes();
      }
    }

    method OnBytes() returns (error: Option<Error>)
      requires 0 <= messageSize <= MAX_FRAME_BYTES && sizePacketSoFar == 0
      modifies this
      ensures Performs(error, old(ParseBody(data, messageTag, messageSize)))
      decreases |data|, 7
    {
      if messageSize == 0 {
        emitted := emitted + [Frame(messageTag, [])];
        error := Next();
        return;
      }
      if |data| < messageSize {
        state := ProtoBytes;
        return None;
      }
      var body := data[..messageSize];
      data := data[messageSize..];
      emitted := emitted + [Frame(messageTag, body)];
      error := Next();
    }

    method Next() returns (error: Option<Error>)
      requires sizePacketSoFar == 0
      modifies this
      ensures Performs(error, old(ParseFrames(data, messageTag, messageSize)))
      decreases |data|, 6
    {
      state := TagAndSize;
      error := WaitForData();
    }
  }
}
