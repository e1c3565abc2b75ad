/** `XZYH` frames: how a byte stream is cut into them. */
module PpcsFrames {
  import opened Bytes

  const MAGIC: bytes := [0x58, 0x5a, 0x59, 0x48]
  const HEADER: nat := 16
  const MAX_PAYLOAD: nat := 16 * 1024 * 1024

  datatype Frame = Frame(header: bytes, payload: bytes) {
    function Raw(): bytes { header + payload }

    function Command(): nat
      requires |header| == HEADER
    {
      ReadU16LE(header, 4)
    }

    function Channel(): byte
      requires |header| == HEADER
    {
      header[12]
    }

    function SignCode(): byte
      requires |header| == HEADER
    {
      header[13]
    }

    /** `isHomeBaseResultFrame`. */
    predicate IsResult()
      requires |header| == HEADER
    {
      header[14] == 1
    }
  }

  /** At least a header's length, beginning with MAGIC. */
  predicate HasHeader(data: bytes) {
    |data| >= HEADER && data[0] == 0x58 && data[1] == 0x5a && data[2] == 0x59 && data[3] == 0x48
  }

  function DeclaredSize(data: bytes): nat
    requires HasHeader(data)
  {
    ReadU32LE(data, 6)
  }

  /** Frames found, bytes kept, and whether the bytes kept start an oversize frame. */
  datatype Scanned = Scanned(frames: seq<Frame>, rest: bytes, oversize: bool)

  function Scan(data: bytes): (s: Scanned)
    ensures forall f :: f in s.frames ==> |f.header| == HEADER
    decreases |data|
  {
    if !HasHeader(data) then Scanned([], data, false)
    else
      var size := DeclaredSize(data);
      if size > MAX_PAYLOAD then Scanned([], data, true)
      else if |data| < HEADER + size then Scanned([], data, false)
      else
        var later := Scan(data[HEADER + size..]);
        later.(frames := [Frame(data[..HEADER], data[HEADER..HEADER + size])] + later.frames)
  }

  predicate Oversized(data: bytes) {
    HasHeader(data) && DeclaredSize(data) > MAX_PAYLOAD
  }

  /** `data` begins with a whole frame, `End(data)` bytes long. */
  predicate Complete(data: bytes) {
    HasHeader(data) && DeclaredSize(data) <= MAX_PAYLOAD && HEADER + DeclaredSize(data) <= |data|
  }

  function End(data: bytes): (end: nat)
    requires Complete(data)
    ensures HEADER <= end <= |data|
  {
    HEADER + DeclaredSize(data)
  }

  function First(data: bytes): (f: Frame)
    requires Complete(data)
  {
    Frame(data[..HEADER], data[HEADER..End(data)])
  }

  /** Where the fields of a frame are, in numbers. */
  lemma Layout(data: bytes)
    ensures HasHeader(data) <==> |data| >= 16 && data[..4] == [88, 90, 89, 72]
    ensures HasHeader(data) ==>
              && DeclaredSize(data) ==
                 data[6] as int + 256 * data[7] as int + 65536 * data[8] as int + 16777216 * data[9] as int
              && (Oversized(data) <==> DeclaredSize(data) > 16777216)
              && (Complete(data) <==> DeclaredSize(data) <= 16777216 && DeclaredSize(data) + 16 <= |data|)
    ensures Complete(data) ==>
              var f := First(data);
              && f.header == data[..16] && f.payload == data[16..16 + DeclaredSize(data)]
              && f.Command() == data[4] as int + 256 * data[5] as int
              && f.Channel() == data[12] && f.SignCode() == data[13] && (f.IsResult() <==> data[14] == 1)
  {
  }

  /** One step of the scan. */
  lemma ScanStep(data: bytes)
    ensures !Complete(data) ==> Scan(data) == Scanned([], data, Oversized(data))
    ensures Complete(data) ==>
              var later := Scan(data[End(data)..]);
              Scan(data) == later.(frames := [First(data)] + later.frames)
  {
  }

  lemma HeaderStable(a: bytes, b: bytes)
    requires HasHeader(a)
    ensures HasHeader(a + b) && DeclaredSize(a + b) == DeclaredSize(a)
    ensures Oversized(a) ==> Oversized(a + b)
    ensures Complete(a) ==> Complete(a + b) && End(a + b) == End(a)
  {
  }

  lemma FirstStable(a: bytes, b: bytes)
    requires Complete(a)
    ensures Complete(a + b) && First(a + b) == First(a)
    ensures (a + b)[End(a + b)..] == a[End(a)..] + b
  {
    HeaderStable(a, b);
    hide HasHeader, DeclaredSize;
    assert (a + b)[..HEADER] == a[..HEADER];
    assert (a + b)[HEADER..End(a)] == a[HEADER..End(a)];
  }

  /**
   * Cutting a stream anywhere and keeping only the rest between the pieces
   * finds the same frames; an oversize header ends the stream for good.
   */
  lemma {:induction false} ScanResumes(a: bytes, b: bytes)
    ensures Scan(a).oversize ==> Scan(a + b).oversize && Scan(a + b).frames == Scan(a).frames
    ensures !Scan(a).oversize ==>
              var later := Scan(Scan(a).rest + b);
              Scan(a + b) == later.(frames := Scan(a).frames + later.frames)
    decreases |a|
  {
    hide Scan, DeclaredSize, HasHeader, First;
    ScanStep(a);
    ScanStep(a + b);
    if Complete(a) {
      FirstStable(a, b);
      ScanResumes(a[End(a)..], b);
    } else if Oversized(a) {
      HeaderStable(a, b);
    }
  }

  ghost predicate Suffix(s: bytes, whole: bytes) {
    |s| <= |whole| && whole[|whole| - |s|..] == s
  }

  ghost predicate SliceAt(s: bytes, whole: bytes, i: nat) {
    i + |s| <= |whole| && whole[i..i + |s|] == s
  }

  ghost predicate Slice(s: bytes, whole: bytes) {
    exists i: nat :: SliceAt(s, whole, i)
  }

  lemma SuffixTrans(a: bytes, b: bytes, c: bytes)
    requires Suffix(a, b) && Suffix(b, c)
    ensures Suffix(a, c)
  {
    DropAfterDrop(c, |c| - |b|, |b| - |a|);
  }

  lemma SliceOfSuffix(s: bytes, b: bytes, c: bytes)
    requires Slice(s, b) && Suffix(b, c)
    ensures Slice(s, c)
  {
    var i: nat :| SliceAt(s, b, i);
    SliceAfterDrop(c, |c| - |b|, i, i + |s|);
    assert SliceAt(s, c, |c| - |b| + i);
  }

  /** Every frame found is a contiguous piece of the stream, and the rest is its end. */
  lemma {:induction false} ScanCutsOut(data: bytes)
    ensures Suffix(Scan(data).rest, data)
    ensures forall f :: f in Scan(data).frames ==> Slice(f.Raw(), data)
    decreases |data|
  {
    ScanStep(data);
    if Complete(data) {
      var first, after := First(data), data[End(data)..];
      assert first.Raw() == data[..End(data)];
      hide Scan, HasHeader, DeclaredSize;
      assert SliceAt(first.Raw(), data, 0);
      assert Suffix(after, data);
      ScanCutsOut(after);
      SuffixTrans(Scan(after).rest, after, data);
      forall f | f in Scan(data).frames ensures Slice(f.Raw(), data) {
        if f != first {
          SliceOfSuffix(f.Raw(), after, data);
        }
      }
    }
  }

  /** A frame as a sender lays it out. */
  ghost predicate WellFormed(f: Frame) {
    && |f.header| == HEADER
    && HasHeader(f.header)
    && DeclaredSize(f.header) == |f.payload| <= MAX_PAYLOAD
  }

  function Encode(frames: seq<Frame>): bytes {
    if frames == [] then [] else frames[0].Raw() + Encode(frames[1..])
  }

  lemma WellFormedIsComplete(f: Frame, after: bytes)
    requires WellFormed(f)
    ensures |f.header| == HEADER
    ensures var data := f.header + (f.payload + after); Complete(data) && End(data) == HEADER + |f.payload|
  {
    HeaderStable(f.header, f.payload + after);
  }

  /** One well-formed frame, then whatever follows. */
  lemma FrameFirst(f: Frame, after: bytes)
    requires WellFormed(f)
    ensures var later := Scan(after);
            Scan(f.header + (f.payload + after)) == later.(frames := [f] + later.frames)
  {
    var data := f.header + (f.payload + after);
    WellFormedIsComplete(f, after);
    hide Scan, HasHeader, DeclaredSize, Complete, WellFormed, End;
    ScanStep(data);
    var n := |f.payload|;
    assert data[..HEADER] == f.header;
    assert data[HEADER..HEADER + n] == f.payload;
    assert data[HEADER + n..] == after;
  }

  /** Frames laid out one after the other are found again, exactly. */
  lemma {:induction false} ScanRecovers(frames: seq<Frame>)
    requires forall f :: f in frames ==> WellFormed(f)
    ensures Scan(Encode(frames)) == Scanned(frames, [], false)
  {
    if frames != [] {
      hide Scan, WellFormed;
      var f, after := frames[0], Encode(frames[1..]);
      assert f.Raw() + after == f.header + (f.payload + after);
      FrameFirst(f, after);
      ScanRecovers(frames[1..]);
      assert frames == [f] + frames[1..];
    } else {
      ScanStep([]);
    }
  }
}
