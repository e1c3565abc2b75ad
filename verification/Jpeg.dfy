/** JPEG reassembly from FFmpeg's arbitrary output chunks (`JpegParser`). */
module Jpeg {
  import opened Bytes

  const SOI: byte := 0xd8
  const EOI: byte := 0xd9

  predicate MarkerAt(data: bytes, kind: byte, i: nat) {
    i + 1 < |data| && data[i] == 0xff && data[i + 1] == kind
  }

  /** No marker of this kind starts in `data` at or after `from`. */
  ghost predicate Free(data: bytes, kind: byte, from: nat) {
    forall i: nat :: from <= i ==> !MarkerAt(data, kind, i)
  }

  /** `Buffer.indexOf` of a two-byte marker. */
  function IndexOf(data: bytes, kind: byte, from: nat): (r: Option<nat>)
    ensures r.Some? ==> from <= r.value && MarkerAt(data, kind, r.value)
    ensures r.Some? ==> forall i: nat :: from <= i < r.value ==> !MarkerAt(data, kind, i)
    ensures r.None? <==> Free(data, kind, from)
    decreases |data| - from
  {
    if |data| <= from + 1 then None
    else if MarkerAt(data, kind, from) then Some(from)
    else IndexOf(data, kind, from + 1)
  }

  /** What the markers of the retained bytes say: nothing yet, an open image, or a whole one. */
  datatype Found = NoStart | Open(start: nat) | Whole(start: nat, end: nat)

  function Find(data: bytes): (f: Found)
    ensures f.Whole? ==> f.start + 2 <= f.end && f.end + 2 <= |data|
    ensures f.Open? ==> f.start + 2 <= |data|
  {
    match IndexOf(data, SOI, 0)
    case None => NoStart
    case Some(start) =>
      match IndexOf(data, EOI, start + 2)
      case None => Open(start)
      case Some(end) => Whole(start, end)
  }

  datatype Scanned = Scanned(images: seq<bytes>, rest: bytes)

  function LastByte(data: bytes): bytes {
    if |data| == 0 then [] else data[|data| - 1..]
  }

  /** What one push over the whole stream `data` finds and keeps. */
  function Scan(data: bytes): Scanned
    decreases |data|
  {
    match Find(data)
    case NoStart => Scanned([], LastByte(data))
    case Open(start) => Scanned([], data[start..])
    case Whole(start, end) =>
      var later := Scan(data[end + 2..]);
      Scanned([data[start..end + 2]] + later.images, later.rest)
  }

  /** One step of the scan, from what was found. */
  lemma ScanStep(data: bytes)
    ensures Find(data) == NoStart ==> Scan(data) == Scanned([], LastByte(data))
    ensures Find(data).Open? ==> Scan(data) == Scanned([], data[Find(data).start..])
    ensures Find(data).Whole? ==>
              var later := Scan(data[Find(data).end + 2..]);
              Scan(data) == Scanned([data[Find(data).start..Find(data).end + 2]] + later.images, later.rest)
  {
  }

  /** No marker starts in `data[from..to]`, wherever its second byte is. */
  ghost predicate Clear(data: bytes, kind: byte, from: nat, to: nat) {
    forall i: nat :: from <= i < to ==> !MarkerAt(data, kind, i)
  }

  /** `Find` from the places of the markers, however they were found. */
  lemma FindWhole(data: bytes, start: nat, end: nat)
    requires Clear(data, SOI, 0, start) && MarkerAt(data, SOI, start)
    requires start + 2 <= end && Clear(data, EOI, start + 2, end) && MarkerAt(data, EOI, end)
    ensures Find(data) == Whole(start, end)
  {
    assert IndexOf(data, SOI, 0) == Some(start);
    assert IndexOf(data, EOI, start + 2) == Some(end);
  }

  lemma FindOpen(data: bytes, start: nat)
    requires Clear(data, SOI, 0, start) && MarkerAt(data, SOI, start)
    requires Free(data, EOI, start + 2)
    ensures Find(data) == Open(start)
  {
    assert IndexOf(data, SOI, 0) == Some(start);
  }

  /** What `Find` says about the bytes. */
  lemma FindMeans(data: bytes)
    ensures match Find(data)
            case NoStart => Free(data, SOI, 0)
            case Open(start) => Clear(data, SOI, 0, start) && MarkerAt(data, SOI, start) && Free(data, EOI, start + 2)
            case Whole(start, end) =>
              && Clear(data, SOI, 0, start) && MarkerAt(data, SOI, start)
              && Clear(data, EOI, start + 2, end) && MarkerAt(data, EOI, end)
  {
  }

  lemma DropMarkers(data: bytes, kind: byte, cut: nat)
    requires cut <= |data|
    ensures forall j: nat :: MarkerAt(data[cut..], kind, j) <==> MarkerAt(data, kind, cut + j)
  {
  }

  lemma JoinMarkers(a: bytes, b: bytes, kind: byte)
    ensures forall j: nat :: j + 1 < |a| ==> (MarkerAt(a + b, kind, j) <==> MarkerAt(a, kind, j))
  {
  }

  /** Bytes before the first start marker do not change what is found, only where. */
  lemma FindDropsLead(data: bytes, cut: nat)
    requires cut <= |data| && Clear(data, SOI, 0, cut)
    ensures match Find(data)
            case NoStart => Find(data[cut..]) == NoStart
            case Open(start) => cut <= start && Find(data[cut..]) == Open(start - cut)
            case Whole(start, end) => cut <= start && Find(data[cut..]) == Whole(start - cut, end - cut)
  {
    FindMeans(data);
    DropMarkers(data, SOI, cut);
    DropMarkers(data, EOI, cut);
    var short := data[cut..];
    match Find(data)
    case NoStart =>
      FindMeans(short);
    case Open(start) =>
      forall j: nat | j < start - cut ensures !MarkerAt(short, SOI, j) {
        assert !MarkerAt(data, SOI, cut + j);
      }
      assert MarkerAt(short, SOI, start - cut);
      FindOpen(short, start - cut);
    case Whole(start, end) =>
      forall j: nat | j < start - cut ensures !MarkerAt(short, SOI, j) {
        assert !MarkerAt(data, SOI, cut + j);
      }
      forall j: nat | start - cut + 2 <= j < end - cut ensures !MarkerAt(short, EOI, j) {
        assert !MarkerAt(data, EOI, cut + j);
      }
      assert MarkerAt(short, SOI, start - cut) && MarkerAt(short, EOI, end - cut);
      FindWhole(short, start - cut, end - cut);
  }

  lemma {:induction false} DropsWithoutStart(data: bytes, cut: nat)
    requires cut < |data| && Find(data) == NoStart && Find(data[cut..]) == NoStart
    ensures Scan(data[cut..]) == Scan(data)
  {
    hide Scan, Find;
    ScanStep(data);
    ScanStep(data[cut..]);
    assert LastByte(data[cut..]) == LastByte(data);
  }

  lemma {:induction false} DropsBeforeOpen(data: bytes, cut: nat, start: nat)
    requires cut <= start <= |data| && Find(data) == Open(start) && Find(data[cut..]) == Open(start - cut)
    ensures Scan(data[cut..]) == Scan(data)
  {
    hide Scan, Find;
    ScanStep(data);
    ScanStep(data[cut..]);
    DropAfterDrop(data, cut, start - cut);
  }

  lemma {:induction false} DropsBeforeWhole(data: bytes, cut: nat, start: nat, end: nat)
    requires cut <= start <= end && end + 2 <= |data|
    requires Find(data) == Whole(start, end) && Find(data[cut..]) == Whole(start - cut, end - cut)
    ensures Scan(data[cut..]) == Scan(data)
  {
    hide Scan, Find;
    var short := data[cut..];
    ScanStep(data);
    ScanStep(short);
    SliceAfterDrop(data, cut, start - cut, end - cut + 2);
    DropAfterDrop(data, cut, end - cut + 2);
    assert short[start - cut..end - cut + 2] == data[start..end + 2];
    assert short[end - cut + 2..] == data[end + 2..];
  }

  /** Bytes before the first start marker do not matter to the scan. */
  lemma {:induction false} ScanDropsLead(data: bytes, cut: nat)
    requires cut <= |data| && Clear(data, SOI, 0, cut)
    requires cut < |data| || cut == 0
    ensures Scan(data[cut..]) == Scan(data)
  {
    hide Scan, Find, Clear;
    FindDropsLead(data, cut);
    if cut == 0 {
      assert data[cut..] == data;
    } else {
      FindIsInside(data);
      match Find(data)
      case NoStart => DropsWithoutStart(data, cut);
      case Open(start) => DropsBeforeOpen(data, cut, start);
      case Whole(start, end) => DropsBeforeWhole(data, cut, start, end);
    }
  }

  lemma FindIsInside(data: bytes)
    ensures Find(data).Open? ==> Find(data).start <= |data|
    ensures Find(data).Whole? ==> Find(data).start <= Find(data).end && Find(data).end + 2 <= |data|
  {
  }

  /**
   * Chunk independence: scanning a stream cut in two anywhere, keeping only
   * the retained suffix between the pieces, finds the same images and keeps
   * the same suffix as scanning it whole.
   */
  lemma {:induction false} ScanResumes(a: bytes, b: bytes)
    ensures Scan(a + b).images == Scan(a).images + Scan(Scan(a).rest + b).images
    ensures Scan(a + b).rest == Scan(Scan(a).rest + b).rest
    decreases |a|
  {
    hide Scan, Find;
    FindMeans(a);
    JoinMarkers(a, b, SOI);
    ScanStep(a);
    match Find(a)
    case NoStart =>
      if |a| > 0 {
        ScanDropsLead(a + b, |a| - 1);
        assert (a + b)[|a| - 1..] == LastByte(a) + b;
      }
    case Open(start) =>
      ScanDropsLead(a + b, start);
      assert (a + b)[start..] == a[start..] + b;
    case Whole(start, end) =>
      JoinMarkers(a, b, EOI);
      FindWhole(a + b, start, end);
      ScanStep(a + b);
      assert (a + b)[start..end + 2] == a[start..end + 2];
      assert (a + b)[end + 2..] == a[end + 2..] + b;
      ScanResumes(a[end + 2..], b);
  }

  /** A JPEG as FFmpeg writes it: from its start marker to its end marker, and no end marker in between. */
  ghost predicate IsImage(image: bytes) {
    && |image| >= 4
    && image[0] == 0xff && image[1] == 0xd8
    && image[|image| - 2] == 0xff && image[|image| - 1] == 0xd9
    && forall i :: 2 <= i < |image| - 2 ==> image[i] != 0xff || image[i + 1] != 0xd9
  }

  /** Bytes that hold no start marker. */
  ghost predicate IsNoise(noise: bytes) {
    forall i :: 0 <= i < |noise| - 1 ==> noise[i] != 0xff || noise[i + 1] != 0xd8
  }

  lemma ImageMarkers(image: bytes)
    ensures IsImage(image) <==>
            && |image| >= 4
            && MarkerAt(image, SOI, 0)
            && MarkerAt(image, EOI, |image| - 2) && Clear(image, EOI, 2, |image| - 2)
  {
    if |image| >= 4 && Clear(image, EOI, 2, |image| - 2) {
      forall i | 2 <= i < |image| - 2 ensures image[i] != 0xff || image[i + 1] != 0xd9 {
        assert !MarkerAt(image, EOI, i);
      }
    }
  }

  lemma NoiseMarkers(noise: bytes)
    ensures IsNoise(noise) <==> Free(noise, SOI, 0)
  {
    if Free(noise, SOI, 0) {
      forall i | 0 <= i < |noise| - 1 ensures noise[i] != 0xff || noise[i + 1] != 0xd8 {
        assert !MarkerAt(noise, SOI, i);
      }
    }
  }

  datatype Segment = Segment(noise: bytes, image: bytes)

  /** FFmpeg output: each image after some noise that holds no start marker. */
  function Output(segments: seq<Segment>): bytes {
    if segments == [] then []
    else segments[0].noise + (segments[0].image + Output(segments[1..]))
  }

  ghost predicate WellFormed(segments: seq<Segment>) {
    forall i :: 0 <= i < |segments| ==>
      IsNoise(segments[i].noise) && IsImage(segments[i].image)
  }

  function ImagesOf(segments: seq<Segment>): seq<bytes> {
    if segments == [] then [] else [segments[0].image] + ImagesOf(segments[1..])
  }

  /** The scan of some noise, one image and whatever follows. */
  lemma ScanFirst(noise: bytes, image: bytes, after: bytes)
    requires IsNoise(noise) && IsImage(image)
    ensures Scan(noise + (image + after)) ==
            Scanned([image] + Scan(after).images, Scan(after).rest)
  {
    ImageMarkers(image);
    NoiseMarkers(noise);
    hide Scan, Find, IsImage, IsNoise;
    var data := noise + (image + after);
    ScanStep(data);
    var body := image + after;
    JoinMarkers(image, after, SOI);
    JoinMarkers(image, after, EOI);
    var n, m := |noise|, |image|;
    assert data[n..] == body;
    DropMarkers(data, SOI, n);
    DropMarkers(data, EOI, n);
    JoinMarkers(noise, body, SOI);
    assert Clear(data, SOI, 0, n) by {
      forall j: nat | j < n ensures !MarkerAt(data, SOI, j) {
        if j + 1 < n {
          assert !MarkerAt(noise, SOI, j);
        } else {
          assert data[j + 1] == body[0] == 0xff;
        }
      }
    }
    FindWhole(body, 0, m - 2);
    FindDropsLead(data, n);
    assert Find(data) == Whole(n, n + m - 2) by {
      FindMeans(data);
    }
    assert data[n..n + m] == image;
    assert data[n + m..] == after;
  }

  /**
   * Completeness: every well-formed output is recovered exactly and in order.
   * A noise byte 0xff before an image cannot form a start marker with the
   * image's own first byte, so the join needs no extra condition.
   */
  lemma {:induction false} ScanRecovers(segments: seq<Segment>, tail: bytes)
    requires WellFormed(segments) && IsNoise(tail)
    ensures Scan(Output(segments) + tail).images == ImagesOf(segments)
    ensures Scan(Output(segments) + tail).rest == if tail == [] then [] else [tail[|tail| - 1]]
  {
    if segments == [] {
      assert Output(segments) + tail == tail;
      NoiseMarkers(tail);
      FindMeans(tail);
    } else {
      var after := Output(segments[1..]) + tail;
      assert Output(segments) + tail == segments[0].noise + (segments[0].image + after);
      ScanFirst(segments[0].noise, segments[0].image, after);
      ScanRecovers(segments[1..], tail);
    }
  }

  /** An image that has begun and not ended is kept whole, without the noise before it. */
  lemma {:induction false} OpenImageIsKept(noise: bytes, part: bytes)
    requires IsNoise(noise) && |part| >= 2 && part[0] == 0xff && part[1] == 0xd8
    requires forall i :: 2 <= i < |part| - 1 ==> part[i] != 0xff || part[i + 1] != 0xd9
    ensures Scan(noise + part) == Scanned([], part)
  {
    NoiseMarkers(noise);
    hide Scan, Find, IsNoise;
    var data, n := noise + part, |noise|;
    JoinMarkers(noise, part, SOI);
    assert data[n..] == part;
    DropMarkers(data, SOI, n);
    DropMarkers(data, EOI, n);
    forall j: nat | j < n ensures !MarkerAt(data, SOI, j) {
      if j + 1 < n {
        assert !MarkerAt(noise, SOI, j);
      } else {
        assert data[j + 1] == part[0] == 0xff;
      }
    }
    forall j: nat | n + 2 <= j ensures !MarkerAt(data, EOI, j) {
      assert MarkerAt(part, EOI, j - n) <==> MarkerAt(data, EOI, n + (j - n));
    }
    assert MarkerAt(part, SOI, 0);
    FindOpen(data, n);
    ScanStep(data);
  }

  /** A parser fed chunk by chunk, keeping only the rest between the chunks. */
  function ScanChunks(chunks: seq<bytes>): Scanned {
    if chunks == [] then Scan([])
    else
      var before := ScanChunks(chunks[..|chunks| - 1]);
      var last := Scan(before.rest + chunks[|chunks| - 1]);
      Scanned(before.images + last.images, last.rest)
  }

  /** Every cut of a stream into chunks gives the images and the rest of the whole stream. */
  lemma {:induction false} ChunksDoNotMatter(chunks: seq<bytes>)
    ensures ScanChunks(chunks) == Scan(Flatten(chunks))
  {
    hide Scan;
    if chunks == [] {
    } else {
      var before, last := chunks[..|chunks| - 1], chunks[|chunks| - 1];
      ChunksDoNotMatter(before);
      FlattenAppend(before, last);
      assert before + [last] == chunks;
      ScanResumes(Flatten(before), last);
    }
  }

  /** However FFmpeg's output is cut into chunks, its images are recovered exactly and in order. */
  lemma ChunkedOutputIsRecovered(segments: seq<Segment>, tail: bytes, chunks: seq<bytes>)
    requires WellFormed(segments) && IsNoise(tail)
    requires Flatten(chunks) == Output(segments) + tail
    ensures ScanChunks(chunks).images == ImagesOf(segments)
    ensures ScanChunks(chunks).rest == if tail == [] then [] else [tail[|tail| - 1]]
  {
    hide Scan, ScanChunks;
    ChunksDoNotMatter(chunks);
    ScanRecovers(segments, tail);
  }

  /** Where a loop over the retained bytes stands: `images` are found, `pending` is left. */
  ghost predicate ScannedSoFar(whole: bytes, images: seq<bytes>, pending: bytes) {
    Scan(whole) == Scanned(images + Scan(pending).images, Scan(pending).rest)
  }

  lemma ScanStarts(whole: bytes)
    ensures ScannedSoFar(whole, [], whole)
  {
    assert [] + Scan(whole).images == Scan(whole).images;
  }

  lemma OneMore(whole: bytes, images: seq<bytes>, pending: bytes)
    requires ScannedSoFar(whole, images, pending) && Find(pending).Whole?
    ensures var f := Find(pending);
            ScannedSoFar(whole, images + [pending[f.start..f.end + 2]], pending[f.end + 2..])
  {
    hide Scan, Find;
    ScanStep(pending);
    var f := Find(pending);
    var image, later := pending[f.start..f.end + 2], Scan(pending[f.end + 2..]);
    assert images + ([image] + later.images) == (images + [image]) + later.images;
  }

  lemma NoMore(whole: bytes, images: seq<bytes>, pending: bytes)
    requires ScannedSoFar(whole, images, pending) && !Find(pending).Whole?
    ensures Scan(whole) ==
            Scanned(images, if Find(pending).Open? then pending[Find(pending).start..] else LastByte(pending))
  {
    hide Scan, Find;
    ScanStep(pending);
    assert images + [] == images;
  }

  lemma FindSteps(data: bytes)
    ensures IndexOf(data, SOI, 0).None? ==> Find(data) == NoStart
    ensures IndexOf(data, SOI, 0).Some? ==>
              var start := IndexOf(data, SOI, 0).value;
              && start + 2 <= |data|
              && Find(data) == match IndexOf(data, EOI, start + 2)
                               case None => Open(start)
                               case Some(end) => Whole(start, end)
  {
  }

  class JpegParser {
    var pending: bytes
    /** Everything pushed so far. */
    ghost var fed: bytes

    ghost predicate Valid()
      reads this
    {
      pending == Scan(fed).rest
    }

    constructor ()
      ensures Valid() && fed == []
    {
      pending := [];
      fed := [];
    }

    /**
     * The images returned by all pushes so far are always those of one scan
     * of the concatenated chunks, and so are the retained bytes.
     */
    method Push(chunk: bytes) returns (images: seq<bytes>)
      requires Valid()
      modifies this
      ensures Valid()
      ensures fed == old(fed) + chunk
      ensures Scan(fed).images == Scan(old(fed)).images + images
    {
      hide Scan, IndexOf, Find, MarkerAt, Free, ScannedSoFar;
      pending := pending + chunk;
      ghost var whole := pending;
      images := [];
      ScanStarts(whole);
      while true
        invariant fed == old(fed)
        invariant ScannedSoFar(whole, images, pending)
        decreases |pending|
      {
        FindSteps(pending);
        var start := IndexOf(pending, SOI, 0);
        if start.None? {
          NoMore(whole, images, pending);
          pending := pending[if |pending| == 0 then 0 else |pending| - 1..];
          break;
        }
        var end := IndexOf(pending, EOI, start.value + 2);
        if end.None? {
          NoMore(whole, images, pending);
          if start.value > 0 {
            pending := pending[start.value..];
          }
          break;
        }
        OneMore(whole, images, pending);
        images := images + [pending[start.value..end.value + 2]];
        pending := pending[end.value + 2..];
      }
      assert Scan(whole) == Scanned(images, pending);
      ScanResumes(fed, chunk);
      fed := fed + chunk;
    }
  }
}
