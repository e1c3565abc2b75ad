/** Reassembly of frames from numbered datagrams, one stream per datagram type. */
module PpcsReassembly {
  import opened Bytes
  import opened PpcsFrames

  type Sequence = x: nat | x < 0x1_0000

  datatype Datagram = Datagram(kind: byte, sequence: Sequence, data: bytes)

  /** What `#consumeData` does with the type's buffer when it meets an oversize header. */
  datatype Policy =
    | DropPending  // FirstPartyPpcsSession forgets it
    | KeepPending  // HomeBasePpcsSession throws before storing it

  datatype Buffers = Buffers(pending: map<byte, bytes>, last: map<byte, Sequence>)

  const EMPTY := Buffers(map[], map[])

  /** Distance between sequence numbers, modulo 65536. */
  function Gap(previous: Sequence, sequence: Sequence): nat {
    (sequence - previous) % 0x1_0000
  }

  predicate Jumps(last: map<byte, Sequence>, d: Datagram) {
    d.kind in last && Gap(last[d.kind], d.sequence) > 1
  }

  function Pending(b: Buffers, kind: byte): bytes {
    if kind in b.pending then b.pending[kind] else []
  }

  /** The bytes of the type that a datagram is appended to. */
  function Held(b: Buffers, d: Datagram): bytes {
    if Jumps(b.last, d) then [] else Pending(b, d.kind)
  }

  function ScanOf(b: Buffers, d: Datagram): Scanned {
    Scan(Held(b, d) + d.data)
  }

  function Consume(policy: Policy, b: Buffers, d: Datagram): Buffers {
    var scan := ScanOf(b, d);
    var kept := if Jumps(b.last, d) then b.pending - {d.kind} else b.pending;
    var pending :=
      if !scan.oversize then kept[d.kind := scan.rest]
      else if policy.DropPending? then kept - {d.kind}
      else kept;
    Buffers(pending, b.last[d.kind := d.sequence])
  }

  function Run(policy: Policy, ds: seq<Datagram>): Buffers {
    if ds == [] then EMPTY else Consume(policy, Run(policy, ds[..|ds| - 1]), ds[|ds| - 1])
  }

  /** The frames the last datagram completes. */
  function Completes(policy: Policy, ds: seq<Datagram>): seq<Frame>
    requires ds != []
  {
    ScanOf(Run(policy, ds[..|ds| - 1]), ds[|ds| - 1]).frames
  }

  /** The frames of one type, in the order they are delivered. */
  function FramesOf(policy: Policy, ds: seq<Datagram>, kind: byte): seq<Frame> {
    if ds == [] then []
    else FramesOf(policy, ds[..|ds| - 1], kind) +
         if ds[|ds| - 1].kind == kind then Completes(policy, ds) else []
  }

  datatype Delivery = Delivery(kind: byte, frame: Frame)

  function Tagged(kind: byte, frames: seq<Frame>): seq<Delivery> {
    seq(|frames|, i requires 0 <= i < |frames| => Delivery(kind, frames[i]))
  }

  /** Every frame of every type, in the order they are delivered. */
  function Deliveries(policy: Policy, ds: seq<Datagram>): seq<Delivery> {
    if ds == [] then []
    else Deliveries(policy, ds[..|ds| - 1]) + Tagged(ds[|ds| - 1].kind, Completes(policy, ds))
  }

  function OfKind(deliveries: seq<Delivery>, kind: byte): seq<Frame> {
    if deliveries == [] then []
    else
      var before, last := deliveries[..|deliveries| - 1], deliveries[|deliveries| - 1];
      OfKind(before, kind) + if last.kind == kind then [last.frame] else []
  }

  lemma {:induction false} OfKindTagged(before: seq<Delivery>, tag: byte, frames: seq<Frame>, kind: byte)
    ensures OfKind(before + Tagged(tag, frames), kind) ==
            OfKind(before, kind) + if tag == kind then frames else []
  {
    if frames == [] {
      assert before + Tagged(tag, frames) == before;
    } else {
      var fewer, last := frames[..|frames| - 1], frames[|frames| - 1];
      var all := before + Tagged(tag, frames);
      assert all[..|all| - 1] == before + Tagged(tag, fewer);
      assert frames == fewer + [last];
      OfKindTagged(before, tag, fewer, kind);
    }
  }

  /** The common delivery log, seen one type at a time. */
  lemma {:induction false} DeliveriesOfKind(policy: Policy, ds: seq<Datagram>, kind: byte)
    ensures OfKind(Deliveries(policy, ds), kind) == FramesOf(policy, ds, kind)
  {
    if ds == [] {
    } else {
      var before := ds[..|ds| - 1];
      DeliveriesOfKind(policy, before, kind);
      OfKindTagged(Deliveries(policy, before), ds[|ds| - 1].kind, Completes(policy, ds), kind);
    }
  }

  // The same stream without buffers

  /** The sequence number of the newest datagram of each type. */
  function Newest(ds: seq<Datagram>): map<byte, Sequence> {
    if ds == [] then map[] else Newest(ds[..|ds| - 1])[ds[|ds| - 1].kind := ds[|ds| - 1].sequence]
  }

  predicate JumpsAfter(ds: seq<Datagram>, d: Datagram) {
    Jumps(Newest(ds), d)
  }

  /** All payload bytes of a type. */
  function AllData(ds: seq<Datagram>, kind: byte): bytes {
    if ds == [] then []
    else AllData(ds[..|ds| - 1], kind) + if ds[|ds| - 1].kind == kind then ds[|ds| - 1].data else []
  }

  /** The payload bytes of a type since its numbers last jumped. */
  function RunData(ds: seq<Datagram>, kind: byte): bytes {
    if ds == [] then []
    else
      var before, d := ds[..|ds| - 1], ds[|ds| - 1];
      if d.kind != kind then RunData(before, kind)
      else if JumpsAfter(before, d) then d.data
      else RunData(before, kind) + d.data
  }

  /** The frames of a type delivered since its numbers last jumped. */
  function RunFrames(policy: Policy, ds: seq<Datagram>, kind: byte): seq<Frame> {
    if ds == [] then []
    else
      var before, d := ds[..|ds| - 1], ds[|ds| - 1];
      if d.kind != kind then RunFrames(policy, before, kind)
      else if JumpsAfter(before, d) then Completes(policy, ds)
      else RunFrames(policy, before, kind) + Completes(policy, ds)
  }

  ghost predicate NoJump(ds: seq<Datagram>, kind: byte) {
    forall n :: 0 <= n < |ds| && ds[n].kind == kind ==> !JumpsAfter(ds[..n], ds[n])
  }

  lemma {:induction false} LastIsNewest(policy: Policy, ds: seq<Datagram>)
    ensures Run(policy, ds).last == Newest(ds)
  {
    if ds == [] {
    } else {
      LastIsNewest(policy, ds[..|ds| - 1]);
    }
  }

  /** Every history function, one datagram later. */
  lemma Appended(policy: Policy, before: seq<Datagram>, d: Datagram, kind: byte)
    ensures var ds := before + [d];
            && ds != [] && ds[..|ds| - 1] == before && ds[|ds| - 1] == d
            && Run(policy, ds) == Consume(policy, Run(policy, before), d)
            && Newest(ds) == Newest(before)[d.kind := d.sequence]
            && Completes(policy, ds) == ScanOf(Run(policy, before), d).frames
            && Deliveries(policy, ds) ==
               Deliveries(policy, before) + Tagged(d.kind, ScanOf(Run(policy, before), d).frames)
            && RunData(ds, kind) ==
               if d.kind != kind then RunData(before, kind)
               else if JumpsAfter(before, d) then d.data
               else RunData(before, kind) + d.data
  {
    assert (before + [d])[..|before + [d]| - 1] == before;
  }

  lemma OthersKeepPending(policy: Policy, b: Buffers, d: Datagram, kind: byte)
    requires d.kind != kind
    ensures Pending(Consume(policy, b, d), kind) == Pending(b, kind)
  {
  }

  lemma StoresRest(policy: Policy, b: Buffers, d: Datagram)
    requires !ScanOf(b, d).oversize
    ensures Pending(Consume(policy, b, d), d.kind) == ScanOf(b, d).rest
  {
  }

  lemma DropsOrKeeps(policy: Policy, b: Buffers, d: Datagram)
    requires ScanOf(b, d).oversize
    ensures Pending(Consume(policy, b, d), d.kind) == if policy.DropPending? then [] else Held(b, d)
  {
  }

  /**
   * Between two jumps a type's frames are those of one parse of its
   * concatenated payloads, whatever the fragmentation, however the types are
   * interleaved and whatever happened before the jump.
   */
  lemma {:induction false} RunIsParsed(policy: Policy, ds: seq<Datagram>, kind: byte)
    requires !Scan(RunData(ds, kind)).oversize
    ensures RunFrames(policy, ds, kind) == Scan(RunData(ds, kind)).frames
    ensures Pending(Run(policy, ds), kind) == Scan(RunData(ds, kind)).rest
  {
    hide Scan, Consume;
    if ds == [] {
      Nothing(policy, kind);
    } else {
      var before, d := ds[..|ds| - 1], ds[|ds| - 1];
      var b := Run(policy, before);
      LastIsNewest(policy, before);
      if d.kind != kind {
        RunIsParsed(policy, before, kind);
        OthersKeepPending(policy, b, d, kind);
      } else if JumpsAfter(before, d) {
        assert Held(b, d) + d.data == d.data;
        StoresRest(policy, b, d);
      } else {
        ScanResumes(RunData(before, kind), d.data);
        RunIsParsed(policy, before, kind);
        StoresRest(policy, b, d);
      }
    }
  }

  lemma {:induction false} WithoutJumps(policy: Policy, ds: seq<Datagram>, kind: byte)
    requires NoJump(ds, kind)
    ensures RunData(ds, kind) == AllData(ds, kind)
    ensures RunFrames(policy, ds, kind) == FramesOf(policy, ds, kind)
  {
    if ds == [] {
    } else {
      var before := ds[..|ds| - 1];
      forall n | 0 <= n < |before| && before[n].kind == kind ensures !JumpsAfter(before[..n], before[n]) {
        assert before[..n] == ds[..n];
      }
      WithoutJumps(policy, before, kind);
    }
  }

  /**
   * Reassembly: when a type's numbers never jump (wrapping at 65536 is no
   * jump), its frames are exactly those of its payloads laid end to end.
   */
  lemma Reassembles(policy: Policy, ds: seq<Datagram>, kind: byte)
    requires NoJump(ds, kind)
    requires !Scan(AllData(ds, kind)).oversize
    ensures FramesOf(policy, ds, kind) == Scan(AllData(ds, kind)).frames
    ensures Pending(Run(policy, ds), kind) == Scan(AllData(ds, kind)).rest
  {
    WithoutJumps(policy, ds, kind);
    RunIsParsed(policy, ds, kind);
  }

  /** Datagrams of one type numbered one after the other, modulo 65536. */
  ghost predicate Consecutive(ds: seq<Datagram>, kind: byte) {
    forall n :: 0 <= n < |ds| && ds[n].kind == kind && kind in Newest(ds[..n]) ==>
      ds[n].sequence == (Newest(ds[..n])[kind] as int + 1) % 0x1_0000
  }

  /** What a sender fragments over consecutive datagrams is delivered whole and in order. */
  lemma {:induction false} SenderReassembles(policy: Policy, ds: seq<Datagram>, kind: byte, frames: seq<Frame>)
    requires Consecutive(ds, kind)
    requires forall f :: f in frames ==> WellFormed(f)
    requires AllData(ds, kind) == Encode(frames)
    ensures FramesOf(policy, ds, kind) == frames
    ensures Pending(Run(policy, ds), kind) == []
  {
    forall n | 0 <= n < |ds| && ds[n].kind == kind ensures !JumpsAfter(ds[..n], ds[n]) {
      if kind in Newest(ds[..n]) {
        assert Gap(Newest(ds[..n])[kind], ds[n].sequence) == 1;
      }
    }
    ScanRecovers(frames);
    Reassembles(policy, ds, kind);
  }

  // Losses

  /**
   * What a type holds was not the end of what arrived since its last jump.
   * Only a throw can bring this about: bytes held when an oversize header is
   * met are kept although the scan went past them. It lasts until the numbers
   * of the type jump, a frame is completed or another throw happens to put it
   * right; datagrams of other types have no part in it.
   */
  ghost predicate Stale(policy: Policy, ds: seq<Datagram>, kind: byte) {
    ds != [] &&
    var before, d := ds[..|ds| - 1], ds[|ds| - 1];
    if d.kind != kind then Stale(policy, before, kind)
    else if JumpsAfter(before, d) then false
    else if ScanOf(Run(policy, before), d).oversize then
      policy.KeepPending? && !Suffix(Held(Run(policy, before), d), RunData(ds, kind))
    else Stale(policy, before, kind) && ScanOf(Run(policy, before), d).frames == []
  }

  /** Whether a datagram is appended to stale bytes. */
  ghost predicate MeetsStale(policy: Policy, ds: seq<Datagram>)
    requires ds != []
  {
    var before, d := ds[..|ds| - 1], ds[|ds| - 1];
    !JumpsAfter(before, d) && Stale(policy, before, d.kind)
  }

  lemma EmptyIsSuffix(whole: bytes)
    ensures Suffix([], whole)
  {
  }

  lemma SuffixExtends(s: bytes, whole: bytes, more: bytes)
    ensures Suffix(s + more, whole + more) <==> Suffix(s, whole)
  {
    if |s| <= |whole| {
      assert (whole + more)[|whole| - |s|..] == whole[|whole| - |s|..] + more;
      assert whole[|whole| - |s|..] == (whole[|whole| - |s|..] + more)[..|s|];
      assert s == (s + more)[..|s|];
    }
  }

  /** A whole frame that `a` does not hold yet ends in what follows `a`. */
  lemma FrameEndsLater(a: bytes, b: bytes)
    requires !Complete(a) && Complete(a + b)
    ensures End(a + b) > |a|
  {
    if HasHeader(a) {
      HeaderStable(a, b);
    }
  }

  lemma {:induction false} RestIsIncomplete(data: bytes)
    ensures !Complete(Scan(data).rest)
    decreases |data|
  {
    hide Complete;
    ScanStep(data);
    if !Complete(data) {
    } else {
      RestIsIncomplete(data[End(data)..]);
    }
  }

  /** Between datagrams no type holds a whole frame. */
  lemma {:induction false} HeldIsIncomplete(policy: Policy, ds: seq<Datagram>, kind: byte)
    ensures !Complete(Pending(Run(policy, ds), kind))
  {
    hide Consume, Scan, Complete;
    if ds == [] {
      Nothing(policy, kind);
      NothingIsIncomplete();
    } else {
      var before, d := ds[..|ds| - 1], ds[|ds| - 1];
      var b := Run(policy, before);
      HeldIsIncomplete(policy, before, kind);
      NothingIsIncomplete();
      if d.kind != kind {
        OthersKeepPending(policy, b, d, kind);
      } else if ScanOf(b, d).oversize {
        DropsOrKeeps(policy, b, d);
      } else {
        StoresRest(policy, b, d);
        RestIsIncomplete(Held(b, d) + d.data);
      }
    }
  }

  lemma NothingIsIncomplete()
    ensures !Complete([])
  {
  }

  /** The bytes of a first frame that ends in the new bytes, and what follows it. */
  lemma FirstEndsInData(held: bytes, data: bytes)
    requires !Complete(held) && Complete(held + data)
    ensures var input := held + data;
            && SliceAt(First(input).Raw(), input, 0) && |First(input).Raw()| > |held|
            && Suffix(input[End(input)..], data)
  {
    var input := held + data;
    FrameEndsLater(held, data);
    hide HasHeader, DeclaredSize, Complete;
    assert First(input).Raw() == input[..End(input)];
    assert input[End(input)..] == data[End(input) - |held|..];
  }

  /** The first frame takes up all that was held: the others and the rest lie in the new bytes. */
  lemma FirstFrameUsesHeld(held: bytes, data: bytes)
    requires !Complete(held) && Scan(held + data).frames != []
    ensures var s := Scan(held + data);
            && SliceAt(s.frames[0].Raw(), held + data, 0) && |s.frames[0].Raw()| > |held|
            && (forall i :: 1 <= i < |s.frames| ==> Slice(s.frames[i].Raw(), data))
            && Suffix(s.rest, data)
  {
    hide Scan, Complete, First, End, Suffix, Slice, SliceAt, Frame.Raw;
    var input := held + data;
    ScanStep(input);
    FirstEndsInData(held, data);
    var after := input[End(input)..];
    ScanCutsOut(after);
    SuffixTrans(Scan(after).rest, after, data);
    forall f | f in Scan(after).frames ensures Slice(f.Raw(), data) {
      SliceOfSuffix(f.Raw(), after, data);
    }
    assert Scan(input).frames == [First(input)] + Scan(after).frames;
  }

  lemma NoFrameKeepsAll(data: bytes)
    requires Scan(data).frames == [] && !Scan(data).oversize
    ensures Scan(data).rest == data
  {
    ScanStep(data);
  }

  lemma DataIsSuffix(whole: bytes, data: bytes)
    ensures Suffix(data, whole + data)
  {
  }

  /** One datagram of the type without a jump, its numbers and the past aside. */
  lemma ConsumeKeepsSuffixIff(policy: Policy, b: Buffers, d: Datagram, run: bytes)
    requires !Jumps(b.last, d) && !ScanOf(b, d).oversize && !Complete(Pending(b, d.kind))
    ensures Suffix(Pending(Consume(policy, b, d), d.kind), run + d.data) <==>
            Suffix(Pending(b, d.kind), run) || ScanOf(b, d).frames != []
  {
    hide Consume, Scan, Suffix, Complete;
    var held := Pending(b, d.kind);
    StoresRest(policy, b, d);
    if ScanOf(b, d).frames == [] {
      NoFrameKeepsAll(held + d.data);
      SuffixExtends(held, run, d.data);
    } else {
      FirstFrameUsesHeld(held, d.data);
      DataIsSuffix(run, d.data);
      SuffixTrans(ScanOf(b, d).rest, d.data, run + d.data);
    }
  }

  lemma JumpKeepsSuffix(policy: Policy, b: Buffers, d: Datagram)
    requires Jumps(b.last, d)
    ensures Suffix(Pending(Consume(policy, b, d), d.kind), d.data)
  {
    hide Consume, Scan;
    assert Held(b, d) + d.data == d.data;
    if ScanOf(b, d).oversize {
      DropsOrKeeps(policy, b, d);
    } else {
      StoresRest(policy, b, d);
      ScanCutsOut(d.data);
    }
  }

  /** What a type holds is the end of what arrived since its last jump, unless and only unless it is stale. */
  lemma {:induction false} HeldIsRunSuffix(policy: Policy, ds: seq<Datagram>, kind: byte)
    ensures Suffix(Pending(Run(policy, ds), kind), RunData(ds, kind)) <==> !Stale(policy, ds, kind)
  {
    hide Consume, ScanOf, Suffix, Complete;
    if ds == [] {
      Nothing(policy, kind);
      EmptyIsSuffix([]);
    } else {
      var before, d := ds[..|ds| - 1], ds[|ds| - 1];
      var b := Run(policy, before);
      HeldIsRunSuffix(policy, before, kind);
      LastIsNewest(policy, before);
      if d.kind != kind {
        OthersKeepPending(policy, b, d, kind);
      } else if JumpsAfter(before, d) {
        JumpKeepsSuffix(policy, b, d);
      } else if ScanOf(b, d).oversize {
        DropsOrKeeps(policy, b, d);
        EmptyIsSuffix(RunData(ds, kind));
      } else {
        HeldIsIncomplete(policy, before, kind);
        ConsumeKeepsSuffixIff(policy, b, d, RunData(before, kind));
      }
    }
  }

  /** The session that drops its bytes never holds stale ones. */
  lemma {:induction false} DroppingIsClean(ds: seq<Datagram>, kind: byte)
    ensures !Stale(DropPending, ds, kind)
  {
    if ds == [] {
    } else {
      DroppingIsClean(ds[..|ds| - 1], kind);
    }
  }

  /**
   * The throw that makes held bytes stale can be told when it happens: the
   * bytes held are not repeated at the end of themselves and the datagram.
   */
  lemma ThrowIsSeen(before: seq<Datagram>, d: Datagram)
    requires !JumpsAfter(before, d) && !Stale(KeepPending, before, d.kind)
    requires ScanOf(Run(KeepPending, before), d).oversize
    ensures var held := Pending(Run(KeepPending, before), d.kind);
            Stale(KeepPending, before + [d], d.kind) <==> !Suffix(held, held + d.data)
  {
    hide ScanOf, Suffix, Run, RunData;
    var held, run := Pending(Run(KeepPending, before), d.kind), RunData(before, d.kind);
    HeldIsRunSuffix(KeepPending, before, d.kind);
    LastIsNewest(KeepPending, before);
    Appended(KeepPending, before, d, d.kind);
    SuffixExtends(held, run, d.data);
    SuffixOfSuffix(held, held + d.data, run + d.data);
  }

  /** Of two ends of the same bytes the shorter is an end of the longer. */
  lemma SuffixOfSuffix(a: bytes, b: bytes, whole: bytes)
    requires Suffix(b, whole) && |a| <= |b|
    ensures Suffix(a, b) <==> Suffix(a, whole)
  {
    DropAfterDrop(whole, |whole| - |b|, |b| - |a|);
  }

  /** `raw` stands in the run where the last `back` bytes of it begin. */
  ghost predicate StandsAt(raw: bytes, run: bytes, back: nat) {
    back <= |run| && SliceAt(raw, run, |run| - back)
  }

  lemma StandsWhereReceived(raw: bytes, held: bytes, data: bytes, run: bytes)
    requires SliceAt(raw, held + data, 0) && |raw| > |held|
    ensures StandsAt(raw, run + data, |held| + |data|) <==> Suffix(held, run)
  {
    var whole := run + data;
    if Suffix(held, run) {
      SuffixExtends(held, run, data);
      SliceAfterDrop(whole, |run| - |held|, 0, |raw|);
    } else if |held| <= |run| {
      var at := |run| - |held|;
      assert raw[..|held|] == held;
      assert at + |raw| <= |whole| ==> whole[at..at + |raw|][..|held|] == run[at..];
    }
  }

  /** Frames completed from `held` and `data`, against the bytes `run` that came before `data`. */
  ghost predicate FramesStand(frames: seq<Frame>, held: bytes, data: bytes, run: bytes)
    requires frames != []
  {
    && (StandsAt(frames[0].Raw(), run + data, |held| + |data|) <==> Suffix(held, run))
    && (forall i :: 1 <= i < |frames| ==> Slice(frames[i].Raw(), data))
    && (Suffix(held, run) ==> forall f :: f in frames ==> Slice(f.Raw(), run + data))
  }

  lemma CompletedStand(held: bytes, data: bytes, run: bytes)
    requires !Complete(held) && Scan(held + data).frames != []
    ensures FramesStand(Scan(held + data).frames, held, data, run)
  {
    hide Scan, Complete, Suffix, Slice, SliceAt, StandsAt, Frame.Raw;
    var frames := Scan(held + data).frames;
    FirstFrameUsesHeld(held, data);
    StandsWhereReceived(frames[0].Raw(), held, data, run);
    StandingIsSlice(frames[0].Raw(), run + data, |held| + |data|);
    DataIsSuffix(run, data);
    forall i | 1 <= i < |frames| ensures Slice(frames[i].Raw(), run + data) {
      SliceOfSuffix(frames[i].Raw(), data, run + data);
    }
  }

  /** What a datagram is appended to, and whether that is stale. */
  lemma HeldOrStale(policy: Policy, before: seq<Datagram>, d: Datagram)
    ensures var ds := before + [d];
            var held := Held(Run(policy, before), d);
            var run := if JumpsAfter(before, d) then [] else RunData(before, d.kind);
            && ds[..|ds| - 1] == before && ds[|ds| - 1] == d
            && !Complete(held)
            && RunData(ds, d.kind) == run + d.data
            && (Suffix(held, run) <==> !MeetsStale(policy, ds))
  {
    hide Run, Stale, Suffix, Complete, RunData, Newest;
    HeldIsIncomplete(policy, before, d.kind);
    NothingIsIncomplete();
    LastIsNewest(policy, before);
    HeldIsRunSuffix(policy, before, d.kind);
    EmptyIsSuffix([]);
    Appended(policy, before, d, d.kind);
    assert [] + d.data == d.data;
  }

  /**
   * No frame straddles a loss. For arbitrary datagrams and both sessions:
   * the first frame a datagram completes stands in the bytes of its type since
   * the numbers last jumped, exactly where the bytes it was put together from
   * would stand, if and only if these were not stale. All further frames lie in
   * the datagram itself. So without stale bytes every frame is a contiguous
   * piece of what arrived since the jump.
   */
  lemma NoFrameStraddlesALoss(policy: Policy, ds: seq<Datagram>)
    requires ds != [] && Completes(policy, ds) != []
    ensures var d, frames := ds[|ds| - 1], Completes(policy, ds);
            var held := Held(Run(policy, ds[..|ds| - 1]), d);
            && (StandsAt(frames[0].Raw(), RunData(ds, d.kind), |held| + |d.data|) <==> !MeetsStale(policy, ds))
            && (forall i :: 1 <= i < |frames| ==> Slice(frames[i].Raw(), d.data))
            && (!MeetsStale(policy, ds) ==> forall f :: f in frames ==> Slice(f.Raw(), RunData(ds, d.kind)))
  {
    hide *;
    var before, d := ds[..|ds| - 1], ds[|ds| - 1];
    assert ds == before + [d];
    HeldOrStale(policy, before, d);
    CompletesScan(policy, ds);
    var run := if JumpsAfter(before, d) then [] else RunData(before, d.kind);
    CompletedStand(Held(Run(policy, before), d), d.data, run);
    StandMeans(Completes(policy, ds), Held(Run(policy, before), d), d.data, run);
  }

  lemma CompletesScan(policy: Policy, ds: seq<Datagram>)
    requires ds != []
    ensures Completes(policy, ds) == Scan(Held(Run(policy, ds[..|ds| - 1]), ds[|ds| - 1]) + ds[|ds| - 1].data).frames
  {
  }

  lemma StandMeans(frames: seq<Frame>, held: bytes, data: bytes, run: bytes)
    requires frames != [] && FramesStand(frames, held, data, run)
    ensures StandsAt(frames[0].Raw(), run + data, |held| + |data|) <==> Suffix(held, run)
    ensures forall i :: 1 <= i < |frames| ==> Slice(frames[i].Raw(), data)
    ensures Suffix(held, run) ==> forall f :: f in frames ==> Slice(f.Raw(), run + data)
  {
  }

  lemma StandingIsSlice(raw: bytes, run: bytes, back: nat)
    ensures StandsAt(raw, run, back) ==> Slice(raw, run)
  {
  }

  // Losses, from the numbers alone

  /** The number `next` comes right after `number`: the next one, or 0 after 65535. */
  predicate Succeeds(number: nat, next: nat) {
    next == number + 1 || (number == 65535 && next == 0)
  }

  /** `ds[k]` is the newest datagram of the last one's type before it. */
  ghost predicate Predecessor(ds: seq<Datagram>, k: nat) {
    && k + 1 < |ds|
    && ds[k].kind == ds[|ds| - 1].kind
    && forall j :: k < j < |ds| - 1 ==> ds[j].kind != ds[k].kind
  }

  /**
   * Something of the type was lost before the last datagram: it neither
   * repeats the number of the one before it nor comes right after that.
   */
  ghost predicate AfterLoss(ds: seq<Datagram>) {
    exists k: nat :: Predecessor(ds, k) &&
      var number, next := ds[k].sequence, ds[|ds| - 1].sequence;
      next != number && !Succeeds(number, next)
  }

  lemma JumpIsLoss(number: Sequence, next: Sequence)
    ensures Gap(number, next) > 1 <==> next != number && !Succeeds(number, next)
  {
  }

  lemma {:induction false} NewestIsLatest(before: seq<Datagram>, kind: byte)
    ensures kind in Newest(before) ==>
              exists k: nat :: k < |before| && before[k].kind == kind && before[k].sequence == Newest(before)[kind]
                               && forall j :: k < j < |before| ==> before[j].kind != kind
    ensures kind !in Newest(before) ==> forall j :: 0 <= j < |before| ==> before[j].kind != kind
  {
    if before == [] {
    } else {
      var last := |before| - 1;
      NewestIsLatest(before[..last], kind);
      if before[last].kind == kind {
        assert before[last].sequence == Newest(before)[kind];
      } else if kind in Newest(before[..last]) {
        var k: nat :| k < last && before[k].kind == kind && before[k].sequence == Newest(before[..last])[kind]
                      && forall j :: k < j < last ==> before[..last][j].kind != kind;
        assert forall j :: k < j < |before| ==> before[j].kind != kind;
      }
    }
  }

  lemma {:induction false} JumpsIffLost(before: seq<Datagram>, d: Datagram)
    ensures JumpsAfter(before, d) <==> AfterLoss(before + [d])
  {
    hide Gap, Newest, Succeeds;
    var ds := before + [d];
    NewestIsLatest(before, d.kind);
    if d.kind in Newest(before) {
      var k: nat :| k < |before| && before[k].kind == d.kind && before[k].sequence == Newest(before)[d.kind]
                    && forall j :: k < j < |before| ==> before[j].kind != d.kind;
      assert Predecessor(ds, k);
      forall other: nat | Predecessor(ds, other) ensures other == k {
        assert ds[other].kind == d.kind && ds[k].kind == d.kind;
      }
      JumpIsLoss(before[k].sequence, d.sequence);
    } else {
      forall k: nat ensures !Predecessor(ds, k) {
        assert k < |before| ==> ds[k] == before[k];
      }
    }
  }

  /**
   * A loss starts over, and nothing else does. When something of the type was
   * lost before a datagram, nothing is held for it: its frames are those of its
   * own bytes, each a contiguous piece of them, and these bytes alone are what
   * arrived since. Otherwise everything held is kept and continued.
   */
  lemma {:induction false} LossStartsOver(policy: Policy, before: seq<Datagram>, d: Datagram)
    ensures var ds, b := before + [d], Run(policy, before);
            if AfterLoss(ds) then
              && Completes(policy, ds) == Scan(d.data).frames
              && (forall f :: f in Completes(policy, ds) ==> Slice(f.Raw(), d.data))
              && Suffix(Pending(Run(policy, ds), d.kind), d.data)
              && RunData(ds, d.kind) == d.data
            else
              && Completes(policy, ds) == Scan(Pending(b, d.kind) + d.data).frames
              && RunData(ds, d.kind) == RunData(before, d.kind) + d.data
  {
    hide Scan, Run, RunData, Newest, Consume, Gap, AfterLoss, Slice, Suffix, Completes;
    LastIsNewest(policy, before);
    JumpsIffLost(before, d);
    Appended(policy, before, d, d.kind);
    assert [] + d.data == d.data;
    if JumpsAfter(before, d) {
      JumpKeepsSuffix(policy, Run(policy, before), d);
      ScanCutsOut(d.data);
    }
  }

  /** The newest number of a type a session remembers is that of the type's newest datagram. */
  lemma {:induction false} RemembersNewest(policy: Policy, ds: seq<Datagram>)
    requires ds != []
    ensures var d := ds[|ds| - 1];
            Run(policy, ds).last == Run(policy, ds[..|ds| - 1]).last[d.kind := d.sequence]
  {
    hide Scan;
  }

  // A header announcing four bytes, and one announcing too many.
  const SHORT: bytes := [0x58, 0x5a, 0x59, 0x48, 0, 0, 4, 0, 0, 0, 0, 0, 0, 0, 0, 0]
  const HUGE: bytes := [0x58, 0x5a, 0x59, 0x48, 0, 0, 0, 0, 0, 255, 0, 0, 0, 0, 0, 0]

  lemma HeadersMean()
    ensures HasHeader(SHORT) && DeclaredSize(SHORT) == 4
    ensures HasHeader(HUGE) && DeclaredSize(HUGE) == 0xff_0000_00
  {
  }

  /** A short frame, then whatever follows. */
  lemma {:induction false} ShortFrame(body: bytes, after: bytes)
    requires |body| == 4
    ensures var later := Scan(after);
            Scan(SHORT + (body + after)) == later.(frames := [Frame(SHORT, body)] + later.frames)
  {
    HeadersMean();
    FrameFirst(Frame(SHORT, body), after);
  }

  lemma SmallScans()
    ensures Scan(SHORT) == Scanned([], SHORT, false)
    ensures Scan(HUGE) == Scanned([], HUGE, true)
  {
    HeadersMean();
    ScanStep(SHORT);
    ScanStep(HUGE);
  }

  lemma SliceByte(s: bytes, whole: bytes, i: nat, k: nat)
    requires i + |s| <= |whole| && k < |s|
    ensures SliceAt(s, whole, i) ==> whole[i + k] == s[k]
  {
    assert whole[i..i + |s|][k] == whole[i + k];
  }

  /** A short frame whose body is not the one that followed its header. */
  lemma NeverOnTheWire(raw: bytes, wire: bytes)
    requires raw == SHORT + [5, 6, 7, 8]
    requires wire == SHORT + ([1, 2, 3, 4] + HUGE) + [5, 6, 7, 8]
    ensures !Slice(raw, wire)
  {
    assert forall i: nat :: i <= 20 ==> wire[i] != 0x58 || wire[i + 6] != 4 || wire[i + 16] != 5;
    forall i: nat ensures !SliceAt(raw, wire, i) {
      if i + 20 <= |wire| {
        SliceByte(raw, wire, i, 0);
        SliceByte(raw, wire, i, 6);
        SliceByte(raw, wire, i, 16);
      }
    }
  }

  const D0 := Datagram(0, 0, SHORT)
  const D1 := Datagram(0, 1, [1, 2, 3, 4] + HUGE)
  const D2 := Datagram(0, 2, [5, 6, 7, 8])

  /** The throwing session's buffer after each of them. */
  lemma StaleBuffers()
    ensures var b0 := Consume(KeepPending, EMPTY, D0);
            var b1 := Consume(KeepPending, b0, D1);
            && b0.last == map[0 := 0] && b1.last == map[0 := 1]
            && Pending(b1, 0) == SHORT
            && ScanOf(b1, D2).frames == [Frame(SHORT, [5, 6, 7, 8])]
  {
    hide Scan;
    SmallScans();
    Nothing(KeepPending, 0);
    ShortFrame([1, 2, 3, 4], HUGE);
    ShortFrame([5, 6, 7, 8], []);
    assert [] + SHORT == SHORT;
    assert [5, 6, 7, 8] + [] == [5, 6, 7, 8];
    assert Pending(Consume(KeepPending, EMPTY, D0), 0) == SHORT;
  }

  /**
   * The throwing session does need its condition: a throw that finds bytes
   * held keeps them although their frame was delivered, and the next datagram
   * is glued to them. The frame so delivered never was on the wire.
   */
  lemma ThrowLeavesStaleBytes() returns (ds: seq<Datagram>, f: Frame)
    ensures ds != [] && NoJump(ds, 0)
    ensures f in Completes(KeepPending, ds) && !Slice(f.Raw(), RunData(ds, 0))
  {
    hide Scan, Slice, Run, RunData, Completes, Consume, ScanOf;
    var one, two := [] + [D0], [] + [D0] + [D1];
    ds, f := two + [D2], Frame(SHORT, [5, 6, 7, 8]);
    Nothing(KeepPending, 0);
    StaleBuffers();
    Appended(KeepPending, [], D0, 0);
    Appended(KeepPending, one, D1, 0);
    Appended(KeepPending, two, D2, 0);
    assert RunData(ds, 0) == SHORT + ([1, 2, 3, 4] + HUGE) + [5, 6, 7, 8];
    NeverOnTheWire(f.Raw(), RunData(ds, 0));
    assert ds[..0] == [] && ds[..1] == one && ds[..2] == two;
  }

  lemma Nothing(policy: Policy, kind: byte)
    ensures Run(policy, []) == EMPTY && RunData([], kind) == [] && Newest([]) == map[]
    ensures Scan([]) == Scanned([], [], false)
  {
  }
}
