/**
 * The durable snapshot store (`SnapshotStore`): an in-memory index over image
 * files, replaced by temporary file and rename, one queued write at a time.
 *
 * The disk is a map from paths to files; a file being written is `Partial`
 * until it is complete, and a rename replaces its target in one step. Every
 * `write` call gets a number, kept with what it stores, so that "older" and
 * "newer" can be said across failures and restarts.
 */
module Snapshots {
  import opened Bytes

  datatype Origin = FromEvent | FromLive

  datatype Info = Info(capturedAt: string, contentType: string, source: Origin, revision: nat)

  datatype Entry = Entry(info: Info, write: nat)

  type Records = map<string, Entry>

  /** Hashed file names are taken to be distinct for distinct serials. */
  datatype Path = ImagePath(serial: string) | IndexPath | ImageTemp(serial: string) | IndexTemp

  datatype File = Partial | Image(data: bytes, write: nat) | Index(records: Records)

  datatype Request = Request(
    serial: string,
    data: bytes,
    contentType: string,
    source: Origin,
    capturedAt: string,
    write: nat)

  /** Where an operation waits; `ImageRenamed` and `IndexRenamed` are between a rename and its continuation. */
  datatype Phase = WritingImage | RenamingImage | ImageRenamed | WritingIndex | RenamingIndex | IndexRenamed

  datatype Flight = Flight(request: Request, entry: Entry, phase: Phase)

  datatype Settlement = Settlement(serial: string, write: nat, result: Option<Info>)

  datatype Read = Read(serial: string, entry: Entry)

  /** A finished read: the info it returns and the file it read, if there was one. */
  datatype ReadResult = ReadResult(read: Read, file: Option<File>)

  datatype State = State(
    disk: map<Path, File>,
    running: bool,
    records: Records,
    queue: seq<Request>,
    flight: Option<Flight>,
    settled: seq<Settlement>,
    readers: map<nat, Read>,
    results: seq<ReadResult>,
    writes: seq<Request>)

  const FRESH := State(map[], false, map[], [], None, [], map[], [], [])

  datatype Event =
    | Initialize
    | Write(serial: string, data: bytes, contentType: string, source: Origin, capturedAt: string)
    | Begin
    | Continue(ok: bool)
    | StartRead(id: nat, serial: string)
    | FinishRead(id: nat)
    | Crash

  function Revision(records: Records, serial: string): nat {
    if serial in records then records[serial].info.revision else 0
  }

  function Rename(disk: map<Path, File>, from: Path, to: Path): map<Path, File>
    requires from in disk
  {
    (disk - {from})[to := disk[from]]
  }

  function Abort(s: State, f: Flight): State {
    s.(flight := None, settled := s.settled + [Settlement(f.request.serial, f.request.write, None)])
  }

  function BeginNext(s: State): State
    requires s.queue != []
  {
    var r := s.queue[0];
    if r.data == [] then s.(queue := s.queue[1..], settled := s.settled + [Settlement(r.serial, r.write, None)])
    else
      var info := Info(r.capturedAt, r.contentType, r.source, Revision(s.records, r.serial) + 1);
      s.(queue := s.queue[1..],
         disk := s.disk[ImageTemp(r.serial) := Partial],
         flight := Some(Flight(r, Entry(info, r.write), WritingImage)))
  }

  /** The operation in flight takes its next step; a file operation may fail instead. */
  function Advance(s: State, f: Flight, ok: bool): State {
    var r := f.request;
    match f.phase
    case WritingImage =>
      if !ok then Abort(s, f)
      else s.(disk := s.disk[ImageTemp(r.serial) := Image(r.data, r.write)], flight := Some(f.(phase := RenamingImage)))
    case RenamingImage =>
      if !ok || ImageTemp(r.serial) !in s.disk then Abort(s, f)
      else
        var disk := Rename(s.disk, ImageTemp(r.serial), ImagePath(r.serial));
        s.(disk := disk, flight := Some(f.(phase := ImageRenamed)))
    case ImageRenamed =>
      s.(records := s.records[r.serial := f.entry],
         disk := s.disk[IndexTemp := Partial],
         flight := Some(f.(phase := WritingIndex)))
    case WritingIndex =>
      if !ok then Abort(s, f)
      else s.(disk := s.disk[IndexTemp := Index(s.records)], flight := Some(f.(phase := RenamingIndex)))
    case RenamingIndex =>
      if !ok || IndexTemp !in s.disk then Abort(s, f)
      else s.(disk := Rename(s.disk, IndexTemp, IndexPath), flight := Some(f.(phase := IndexRenamed)))
    case IndexRenamed =>
      s.(flight := None, settled := s.settled + [Settlement(r.serial, r.write, Some(f.entry.info))])
  }

  function OnDisk(disk: map<Path, File>, path: Path): Option<File> {
    if path in disk then Some(disk[path]) else None
  }

  /** One step; steps that cannot happen change nothing. A crash loses all but the disk. */
  function Step(s: State, e: Event): State {
    match e
    case Initialize =>
      if s.running then s
      else if IndexPath !in s.disk then s.(running := true)
      else if !s.disk[IndexPath].Index? then s
      else s.(running := true, records := s.disk[IndexPath].records)
    case Write(serial, data, contentType, source, capturedAt) =>
      if !s.running then s
      else
        var request := Request(serial, data, contentType, source, capturedAt, |s.writes|);
        s.(queue := s.queue + [request], writes := s.writes + [request])
    case Begin => if !s.running || s.flight.Some? || s.queue == [] then s else BeginNext(s)
    case Continue(ok) => if s.flight.None? then s else Advance(s, s.flight.value, ok)
    case StartRead(id, serial) =>
      if !s.running || id in s.readers || serial !in s.records then s
      else s.(readers := s.readers[id := Read(serial, s.records[serial])])
    case FinishRead(id) =>
      if id !in s.readers then s
      else s.(readers := s.readers - {id},
              results := s.results + [ReadResult(s.readers[id], OnDisk(s.disk, ImagePath(s.readers[id].serial)))])
    case Crash =>
      s.(running := false, records := map[], queue := [], flight := None, settled := [], readers := map[])
  }

  function Run(events: seq<Event>): State {
    if events == [] then FRESH else Step(Run(events[..|events| - 1]), events[|events| - 1])
  }

  // Images are complete and only ever replaced by newer ones

  ghost predicate IsWhole(file: File, serial: string, writes: seq<Request>) {
    file.Image? && file.write < |writes| && writes[file.write].serial == serial && writes[file.write].data == file.data
  }

  /** The image file of a serial is at least as new as an entry. */
  ghost predicate Covers(disk: map<Path, File>, serial: string, entry: Entry) {
    ImagePath(serial) in disk && disk[ImagePath(serial)].Image? && disk[ImagePath(serial)].write >= entry.write
  }

  ghost predicate AllCovered(disk: map<Path, File>, records: Records) {
    forall serial :: serial in records ==> Covers(disk, serial, records[serial])
  }

  ghost predicate DiskIsConsistent(s: State) {
    && (forall serial :: ImagePath(serial) in s.disk ==> IsWhole(s.disk[ImagePath(serial)], serial, s.writes))
    && (IndexPath in s.disk ==> s.disk[IndexPath].Index? && AllCovered(s.disk, s.disk[IndexPath].records))
  }

  /** Every stored image comes from a write numbered below `bound`. */
  ghost predicate ImagesBelow(disk: map<Path, File>, bound: nat) {
    forall serial :: ImagePath(serial) in disk && disk[ImagePath(serial)].Image? ==>
      disk[ImagePath(serial)].write < bound
  }

  ghost predicate Queued(r: Request, writes: seq<Request>) {
    r.write < |writes| && writes[r.write] == r
  }

  /** Waiting requests run in the order of their numbers, after everything on disk. */
  ghost predicate QueueIsOrdered(s: State) {
    && (forall i :: 0 <= i < |s.queue| ==> Queued(s.queue[i], s.writes) && ImagesBelow(s.disk, s.queue[i].write))
    && (forall i, j :: 0 <= i < j < |s.queue| ==> s.queue[i].write < s.queue[j].write)
    && ImagesBelow(s.disk, |s.writes|)
  }

  /** What the operation in flight has done so far. */
  ghost predicate FlightFits(s: State, f: Flight) {
    var r := f.request;
    && s.running
    && Queued(r, s.writes)
    && f.entry.write == r.write
    && (forall i :: 0 <= i < |s.queue| ==> r.write < s.queue[i].write)
    && match f.phase
       case WritingImage => ImagesBelow(s.disk, r.write)
       case RenamingImage =>
         ImagesBelow(s.disk, r.write) && OnDisk(s.disk, ImageTemp(r.serial)) == Some(Image(r.data, r.write))
       case _ =>
         && OnDisk(s.disk, ImagePath(r.serial)) == Some(Image(r.data, r.write))
         && (f.phase == RenamingIndex ==> OnDisk(s.disk, IndexTemp) == Some(Index(s.records)))
         && (f.phase == IndexRenamed ==> OnDisk(s.disk, IndexPath) == Some(Index(s.records)))
  }

  ghost predicate Inv(s: State) {
    && DiskIsConsistent(s)
    && QueueIsOrdered(s)
    && AllCovered(s.disk, s.records)
    && (s.flight.Some? ==> FlightFits(s, s.flight.value))
    && (forall id :: id in s.readers ==> Covers(s.disk, s.readers[id].serial, s.readers[id].entry))
    && (forall i :: 0 <= i < |s.results| ==> ReadIsFresh(s.results[i], s.writes))
    && (!s.running ==> s.records == map[] && s.queue == [] && s.flight.None? && s.settled == [])
  }

  /** A read that found its info returns a whole image at least as new as that info. */
  ghost predicate ReadIsFresh(result: ReadResult, writes: seq<Request>) {
    && result.file.Some?
    && IsWhole(result.file.value, result.read.serial, writes)
    && result.file.value.write >= result.read.entry.write
  }

  lemma InitializeKeepsInv(s: State)
    requires Inv(s)
    ensures Inv(Step(s, Initialize))
  {
    hide Covers, IsWhole, ReadIsFresh, ImagesBelow;
  }

  lemma NumbersStay(s: State, more: Request)
    ensures forall file, serial :: IsWhole(file, serial, s.writes) ==> IsWhole(file, serial, s.writes + [more])
    ensures forall r :: Queued(r, s.writes) ==> Queued(r, s.writes + [more])
    ensures forall result :: ReadIsFresh(result, s.writes) ==> ReadIsFresh(result, s.writes + [more])
    ensures forall bound: nat :: ImagesBelow(s.disk, bound) ==> ImagesBelow(s.disk, bound + 1)
  {
  }

  lemma {:induction false} WriteKeepsInv(s: State, e: Event)
    requires Inv(s) && e.Write?
    ensures Inv(Step(s, e))
  {
    var t := Step(s, e);
    if s.running {
      var more := Request(e.serial, e.data, e.contentType, e.source, e.capturedAt, |s.writes|);
      assert t.writes == s.writes + [more] && Queued(more, t.writes);
      NumbersStay(s, more);
      assert forall i :: 0 <= i < |s.queue| ==> Queued(s.queue[i], s.writes) && s.queue[i].write < |s.writes|;
      hide Covers, IsWhole, Queued, ReadIsFresh, ImagesBelow;
      assert QueueIsOrdered(t) && DiskIsConsistent(t);
    }
  }

  lemma {:induction false} RefusalKeepsInv(s: State)
    requires Inv(s) && s.running && s.flight.None? && s.queue != [] && s.queue[0].data == []
    ensures Inv(BeginNext(s))
  {
    hide IsWhole, ReadIsFresh, Covers, ImagesBelow, Queued;
    var t := BeginNext(s);
    assert forall i :: 0 <= i < |t.queue| ==> t.queue[i] == s.queue[i + 1];
  }

  lemma {:induction false} StartKeepsInv(s: State)
    requires Inv(s) && s.running && s.flight.None? && s.queue != [] && s.queue[0].data != []
    ensures Inv(BeginNext(s))
  {
    hide IsWhole, ReadIsFresh;
    var t := BeginNext(s);
    assert forall i :: 0 <= i < |t.queue| ==> t.queue[i] == s.queue[i + 1];
    forall serial ensures OnDisk(t.disk, ImagePath(serial)) == OnDisk(s.disk, ImagePath(serial)) {
    }
    SameFiles(s.disk, t.disk);
    hide Covers, ImagesBelow, Queued, OnDisk;
  }

  lemma {:induction false} BeginKeepsInv(s: State)
    requires Inv(s)
    ensures Inv(Step(s, Begin))
  {
    hide Inv, BeginNext;
    if s.running && s.flight.None? && s.queue != [] {
      if s.queue[0].data == [] {
        RefusalKeepsInv(s);
      } else {
        StartKeepsInv(s);
      }
    }
  }

  /** Renaming a finished image into place only replaces an older one. */
  lemma ImageLands(s: State, f: Flight)
    requires Inv(s) && s.flight == Some(f) && f.phase == RenamingImage
    ensures Inv(Advance(s, f, true))
  {
    var r := f.request;
    var t := Advance(s, f, true);
    assert OnDisk(s.disk, ImageTemp(r.serial)) == Some(Image(r.data, r.write));
    assert forall serial :: serial != r.serial ==>
        OnDisk(t.disk, ImagePath(serial)) == OnDisk(s.disk, ImagePath(serial));
    assert OnDisk(t.disk, ImagePath(r.serial)) == Some(Image(r.data, r.write));
    assert OnDisk(t.disk, IndexPath) == OnDisk(s.disk, IndexPath);
    forall serial, entry | Covers(s.disk, serial, entry) ensures Covers(t.disk, serial, entry) {
      assert serial != r.serial ==> OnDisk(t.disk, ImagePath(serial)) == OnDisk(s.disk, ImagePath(serial));
    }
    hide Rename;
  }

  /** Renaming a finished index into place publishes records that are all covered. */
  lemma IndexLands(s: State, f: Flight)
    requires Inv(s) && s.flight == Some(f) && f.phase == RenamingIndex
    ensures Inv(Advance(s, f, true))
  {
    var t := Advance(s, f, true);
    assert OnDisk(t.disk, IndexPath) == Some(Index(s.records));
    forall serial ensures OnDisk(t.disk, ImagePath(serial)) == OnDisk(s.disk, ImagePath(serial)) {
    }
    SameFiles(s.disk, t.disk);
    hide Covers, ImagesBelow, IsWhole, ReadIsFresh, Rename;
  }

  lemma SameFiles(d: map<Path, File>, e: map<Path, File>)
    requires forall serial :: OnDisk(e, ImagePath(serial)) == OnDisk(d, ImagePath(serial))
    ensures forall serial, entry :: Covers(d, serial, entry) ==> Covers(e, serial, entry)
    ensures forall bound: nat :: ImagesBelow(d, bound) ==> ImagesBelow(e, bound)
    ensures forall serial :: ImagePath(serial) in e ==>
              ImagePath(serial) in d && e[ImagePath(serial)] == d[ImagePath(serial)]
  {
    forall serial, entry | Covers(d, serial, entry) ensures Covers(e, serial, entry) {
      assert OnDisk(e, ImagePath(serial)) == OnDisk(d, ImagePath(serial));
    }
    forall serial | ImagePath(serial) in e
      ensures ImagePath(serial) in d && e[ImagePath(serial)] == d[ImagePath(serial)]
    {
      assert OnDisk(e, ImagePath(serial)) == OnDisk(d, ImagePath(serial));
    }
  }

  /** The steps that replace neither an image nor the index on disk. */
  lemma {:induction false} OtherStepsKeepInv(s: State, f: Flight, ok: bool)
    requires Inv(s) && s.flight == Some(f)
    requires f.phase == RenamingImage || f.phase == RenamingIndex ==> !ok
    ensures Inv(Advance(s, f, ok))
  {
    SameFiles(s.disk, Advance(s, f, ok).disk);
    hide Covers, ImagesBelow, IsWhole, ReadIsFresh, Rename;
  }

  lemma {:induction false} AdvanceKeepsInv(s: State, f: Flight, ok: bool)
    requires Inv(s) && s.flight == Some(f)
    ensures Inv(Advance(s, f, ok))
  {
    hide Inv, Advance;
    if f.phase == RenamingImage && ok {
      ImageLands(s, f);
    } else if f.phase == RenamingIndex && ok {
      IndexLands(s, f);
    } else {
      OtherStepsKeepInv(s, f, ok);
    }
  }

  lemma {:induction false} StepKeepsInv(s: State, e: Event)
    requires Inv(s)
    ensures Inv(Step(s, e))
  {
    match e
    case Initialize => InitializeKeepsInv(s);
    case Write(_, _, _, _, _) => WriteKeepsInv(s, e);
    case Begin => BeginKeepsInv(s);
    case Continue(ok) =>
      if s.flight.Some? {
        AdvanceKeepsInv(s, s.flight.value, ok);
      }
    case _ =>
  }

  lemma {:induction false} RunKeepsInv(events: seq<Event>)
    ensures Inv(Run(events))
  {
    hide Step, Inv;
    if events == [] {
      FreshFits();
    } else {
      RunKeepsInv(events[..|events| - 1]);
      StepKeepsInv(Run(events[..|events| - 1]), events[|events| - 1]);
    }
  }

  lemma FreshFits()
    ensures Inv(FRESH)
  {
  }

  /**
   * Crash consistency: at every point of every run, with file operations
   * failing and the process dying anywhere, each serial in the index on disk
   * has a whole image, the bytes of one of its own writes, no earlier than the
   * write its entry records.
   */
  lemma IndexIsAlwaysCovered(events: seq<Event>, serial: string)
    requires var disk := Run(events).disk;
             IndexPath in disk && disk[IndexPath].Index? && serial in disk[IndexPath].records
    ensures var s := Run(events);
            && ImagePath(serial) in s.disk
            && var image := s.disk[ImagePath(serial)];
            && image.Image?
            && image.write >= s.disk[IndexPath].records[serial].write
            && image.write < |s.writes|
            && s.writes[image.write].serial == serial && s.writes[image.write].data == image.data
  {
    RunKeepsInv(events);
    assert Covers(Run(events).disk, serial, Run(events).disk[IndexPath].records[serial]);
  }

  /** After a crash anywhere the store starts again, from the index on disk. */
  lemma RestartRecovers(events: seq<Event>)
    ensures var s := Run(events);
            var t := Step(Step(s, Crash), Initialize);
            && t.running && t.disk == s.disk
            && t.records == if IndexPath in s.disk && s.disk[IndexPath].Index? then s.disk[IndexPath].records else map[]
  {
    RunKeepsInv(events);
  }

  /** Whatever writes interleave with it, a read returns a whole image no older than its info. */
  lemma ReadsAreFresh(events: seq<Event>, i: nat)
    requires i < |Run(events).results|
    ensures var result := Run(events).results[i];
            && result.file.Some? && result.file.value.Image?
            && result.file.value.write >= result.read.entry.write
            && result.file.value.write < |Run(events).writes|
            && Run(events).writes[result.file.value.write].serial == result.read.serial
            && Run(events).writes[result.file.value.write].data == result.file.value.data
  {
    RunKeepsInv(events);
    assert ReadIsFresh(Run(events).results[i], Run(events).writes);
  }

  // What an info says is what was asked for

  /** An info is that of a numbered write of the serial: its time, its type and its origin. */
  ghost predicate Tells(info: Info, serial: string, write: nat, writes: seq<Request>) {
    && write < |writes|
    && writes[write].serial == serial
    && info.capturedAt == writes[write].capturedAt
    && info.contentType == writes[write].contentType
    && info.source == writes[write].source
    && writes[write].data != []
  }

  ghost predicate RecordsTell(records: Records, writes: seq<Request>) {
    forall serial :: serial in records ==> Tells(records[serial].info, serial, records[serial].write, writes)
  }

  ghost predicate InfosTell(s: State) {
    && (forall i :: 0 <= i < |s.queue| ==> Queued(s.queue[i], s.writes))
    && RecordsTell(s.records, s.writes)
    && (forall path :: path in s.disk && s.disk[path].Index? ==> RecordsTell(s.disk[path].records, s.writes))
    && (s.flight.Some? ==>
          && s.flight.value.entry.write == s.flight.value.request.write
          && Tells(s.flight.value.entry.info, s.flight.value.request.serial, s.flight.value.entry.write, s.writes))
    && (forall id :: id in s.readers ==>
          Tells(s.readers[id].entry.info, s.readers[id].serial, s.readers[id].entry.write, s.writes))
    && (forall i :: 0 <= i < |s.results| ==>
          Tells(s.results[i].read.entry.info, s.results[i].read.serial, s.results[i].read.entry.write, s.writes))
    && (forall i :: 0 <= i < |s.settled| && s.settled[i].result.Some? ==>
          Tells(s.settled[i].result.value, s.settled[i].serial, s.settled[i].write, s.writes))
  }

  lemma TellsLater(info: Info, serial: string, write: nat, writes: seq<Request>, more: Request)
    requires Tells(info, serial, write, writes)
    ensures Tells(info, serial, write, writes + [more])
  {
  }

  lemma {:induction false} WriteKeepsInfos(s: State, e: Event)
    requires InfosTell(s) && e.Write?
    ensures InfosTell(Step(s, e))
  {
    var t := Step(s, e);
    if s.running {
      var more := t.writes[|s.writes|];
      forall info, serial, write: nat | Tells(info, serial, write, s.writes)
        ensures Tells(info, serial, write, t.writes)
      {
        TellsLater(info, serial, write, s.writes, more);
      }
      assert forall i :: 0 <= i < |s.queue| ==> t.queue[i] == s.queue[i] && Queued(t.queue[i], t.writes);
      hide Tells;
    }
  }

  lemma BeginTells(s: State)
    requires InfosTell(s) && s.queue != []
    ensures InfosTell(BeginNext(s))
  {
    hide RecordsTell;
    var t := BeginNext(s);
    assert forall i :: 0 <= i < |t.queue| ==> t.queue[i] == s.queue[i + 1];
    assert Queued(s.queue[0], s.writes);
  }

  lemma RecordTells(records: Records, serial: string, entry: Entry, writes: seq<Request>)
    requires RecordsTell(records, writes) && Tells(entry.info, serial, entry.write, writes)
    ensures RecordsTell(records[serial := entry], writes)
  {
  }

  /** Where the files come from that one step leaves. */
  lemma AdvanceOnDisk(s: State, f: Flight, ok: bool)
    ensures var t, temp := Advance(s, f, ok), ImageTemp(f.request.serial);
            && t.queue == s.queue && t.writes == s.writes && t.readers == s.readers && t.results == s.results
            && forall path :: path in t.disk && t.disk[path].Index? ==>
                 || t.disk[path].records == s.records
                 || (path in s.disk && s.disk[path] == t.disk[path])
                 || (temp in s.disk && s.disk[temp] == t.disk[path])
                 || (IndexTemp in s.disk && s.disk[IndexTemp] == t.disk[path])
  {
    var temp := ImageTemp(f.request.serial);
    if f.phase == RenamingImage && temp in s.disk {
      RenameKeeps(s.disk, temp, ImagePath(f.request.serial));
    } else if f.phase == RenamingIndex && IndexTemp in s.disk {
      RenameKeeps(s.disk, IndexTemp, IndexPath);
    }
    hide Rename;
  }

  lemma RenameKeeps(disk: map<Path, File>, from: Path, to: Path)
    requires from in disk
    ensures forall path :: path in Rename(disk, from, to) ==>
              if path == to then Rename(disk, from, to)[path] == disk[from]
              else path in disk && Rename(disk, from, to)[path] == disk[path]
  {
  }

  lemma {:induction false} AdvanceTells(s: State, f: Flight, ok: bool)
    requires InfosTell(s) && s.flight == Some(f)
    ensures InfosTell(Advance(s, f, ok))
  {
    RecordTells(s.records, f.request.serial, f.entry, s.writes);
    AdvanceOnDisk(s, f, ok);
    AdvanceInMemory(s, f, ok);
    hide Advance, RecordsTell, Tells, Queued, Indexing;
  }

  lemma {:induction false} StepKeepsInfos(s: State, e: Event)
    requires InfosTell(s)
    ensures InfosTell(Step(s, e))
  {
    hide Advance, BeginNext, Tells, Queued;
    match e
    case Write(_, _, _, _, _) => WriteKeepsInfos(s, e);
    case Begin =>
      if s.running && s.flight.None? && s.queue != [] {
        BeginTells(s);
      }
    case Continue(ok) =>
      if s.flight.Some? {
        AdvanceTells(s, s.flight.value, ok);
      }
    case _ =>
  }

  lemma {:induction false} InfosAreTrue(events: seq<Event>)
    ensures InfosTell(Run(events))
  {
    hide Step, InfosTell;
    if events == [] {
      NothingTells();
    } else {
      InfosAreTrue(events[..|events| - 1]);
      StepKeepsInfos(Run(events[..|events| - 1]), events[|events| - 1]);
    }
  }

  lemma NothingTells()
    ensures InfosTell(FRESH)
  {
  }

  /**
   * In every run the info a write returned, the info of every entry in memory
   * or in the index on disk, and the info every read returned carry the time,
   * the type and the origin that the write they record was called with.
   */
  lemma {:induction false} InfosAreOfTheirWrites(events: seq<Event>)
    ensures var s := Run(events);
            && RecordsTell(s.records, s.writes)
            && (IndexPath in s.disk && s.disk[IndexPath].Index? ==> RecordsTell(s.disk[IndexPath].records, s.writes))
            && (forall i :: 0 <= i < |s.settled| && s.settled[i].result.Some? ==>
                  Tells(s.settled[i].result.value, s.settled[i].serial, s.settled[i].write, s.writes))
            && (forall i :: 0 <= i < |s.results| ==>
                  var read := s.results[i].read; Tells(read.entry.info, read.serial, read.entry.write, s.writes))
  {
    hide Run;
    InfosAreTrue(events);
  }

  // Revisions

  predicate Indexing(f: Flight) {
    f.phase == WritingIndex || f.phase == RenamingIndex || f.phase == IndexRenamed
  }

  /** The revision every earlier success of a serial stays below. */
  function Ceiling(s: State, serial: string): nat {
    if s.flight.Some? && s.flight.value.request.serial == serial && Indexing(s.flight.value)
    then s.flight.value.entry.info.revision
    else Revision(s.records, serial) + 1
  }

  ghost predicate FlightCounts(s: State) {
    s.flight.Some? ==>
      var f := s.flight.value;
      if Indexing(f)
      then f.request.serial in s.records && s.records[f.request.serial] == f.entry
      else f.entry.info.revision == Revision(s.records, f.request.serial) + 1
  }

  ghost predicate BelowCeiling(s: State) {
    forall i :: 0 <= i < |s.settled| && s.settled[i].result.Some? ==>
      s.settled[i].result.value.revision < Ceiling(s, s.settled[i].serial)
  }

  /** Successful writes of a serial return ever higher revisions. */
  ghost predicate Increasing(settled: seq<Settlement>) {
    forall i, j :: 0 <= i < j < |settled| && settled[i].serial == settled[j].serial
                   && settled[i].result.Some? && settled[j].result.Some? ==>
      settled[i].result.value.revision < settled[j].result.value.revision
  }

  ghost predicate RevisionsFit(s: State) {
    FlightCounts(s) && BelowCeiling(s) && Increasing(s.settled)
  }

  lemma OneMoreSettled(s: State, t: State, x: Settlement)
    requires BelowCeiling(s) && Increasing(s.settled)
    requires t.settled == s.settled + [x]
    requires forall serial :: Ceiling(s, serial) <= Ceiling(t, serial)
    requires x.result.Some? ==> Ceiling(s, x.serial) <= x.result.value.revision < Ceiling(t, x.serial)
    ensures BelowCeiling(t) && Increasing(t.settled)
  {
    hide Ceiling;
  }

  lemma NoneSettled(s: State, t: State)
    requires BelowCeiling(s) && Increasing(s.settled)
    requires t.settled == s.settled
    requires forall serial :: Ceiling(s, serial) <= Ceiling(t, serial)
    ensures BelowCeiling(t) && Increasing(t.settled)
  {
    hide Ceiling;
  }

  /** What one step of an operation does apart from the disk. */
  lemma AdvanceInMemory(s: State, f: Flight, ok: bool)
    ensures var t := Advance(s, f, ok);
            && t.records == (if f.phase == ImageRenamed then s.records[f.request.serial := f.entry] else s.records)
            && (t.flight.Some? ==>
                  && t.settled == s.settled
                  && t.flight == Some(f.(phase := t.flight.value.phase))
                  && (Indexing(t.flight.value) <==> Indexing(f) || f.phase == ImageRenamed))
            && (t.flight.None? ==>
                  && f.phase != ImageRenamed
                  && t.settled == s.settled +
                       [Settlement(f.request.serial, f.request.write,
                                   if f.phase == IndexRenamed then Some(f.entry.info) else None)])
  {
    hide Rename;
  }

  lemma AdvanceRaisesCeilings(s: State, f: Flight, ok: bool, serial: string)
    requires FlightCounts(s) && s.flight == Some(f)
    ensures var t := Advance(s, f, ok);
            FlightCounts(t) && Ceiling(s, serial) <= Ceiling(t, serial)
  {
    hide Advance;
    AdvanceInMemory(s, f, ok);
  }

  lemma AdvanceSettles(s: State, f: Flight, ok: bool)
    requires FlightCounts(s) && s.flight == Some(f)
    ensures var t := Advance(s, f, ok);
            && (t.flight.Some? ==> t.settled == s.settled)
            && (t.flight.None? ==>
                  exists x :: t.settled == s.settled + [x] &&
                    (x.result.Some? ==> Ceiling(s, x.serial) <= x.result.value.revision < Ceiling(t, x.serial)))
  {
    hide Advance;
    AdvanceInMemory(s, f, ok);
    var t := Advance(s, f, ok);
    if t.flight.None? {
      var x := Settlement(f.request.serial, f.request.write,
                          if f.phase == IndexRenamed then Some(f.entry.info) else None);
      assert t.settled == s.settled + [x];
    }
  }

  lemma {:induction false} AdvanceKeepsRevisions(s: State, f: Flight, ok: bool)
    requires RevisionsFit(s) && s.flight == Some(f)
    ensures RevisionsFit(Advance(s, f, ok))
  {
    hide BelowCeiling, Increasing, Advance, Ceiling, FlightCounts;
    var t := Advance(s, f, ok);
    AdvanceSettles(s, f, ok);
    forall serial ensures Ceiling(s, serial) <= Ceiling(t, serial) {
      AdvanceRaisesCeilings(s, f, ok, serial);
    }
    AdvanceRaisesCeilings(s, f, ok, "");
    if t.flight.None? {
      var x :| t.settled == s.settled + [x] &&
               (x.result.Some? ==> Ceiling(s, x.serial) <= x.result.value.revision < Ceiling(t, x.serial));
      OneMoreSettled(s, t, x);
    } else {
      NoneSettled(s, t);
    }
  }

  lemma {:induction false} StepKeepsRevisions(s: State, e: Event)
    requires Inv(s) && RevisionsFit(s)
    ensures RevisionsFit(Step(s, e))
  {
    hide DiskIsConsistent, QueueIsOrdered, FlightFits, AllCovered, ReadIsFresh, Covers;
    hide BelowCeiling, Increasing, Advance;
    var t := Step(s, e);
    match e
    case Continue(ok) =>
      if s.flight.Some? {
        AdvanceKeepsRevisions(s, s.flight.value, ok);
      }
    case Begin =>
      if t.settled == s.settled {
        NoneSettled(s, t);
      } else {
        OneMoreSettled(s, t, t.settled[|s.settled|]);
      }
    case Initialize => NothingSettled(t);
    case Crash => NothingSettled(t);
    case _ => NoneSettled(s, t);
  }

  lemma NothingSettled(s: State)
    ensures s.settled == [] ==> BelowCeiling(s) && Increasing(s.settled)
  {
  }

  lemma {:induction false} RevisionsIncrease(events: seq<Event>)
    ensures RevisionsFit(Run(events)) && Increasing(Run(events).settled)
  {
    hide Step, Inv;
    if events == [] {
    } else {
      RevisionsIncrease(events[..|events| - 1]);
      RunKeepsInv(events[..|events| - 1]);
      StepKeepsRevisions(Run(events[..|events| - 1]), events[|events| - 1]);
    }
  }

  /** A write that resolves has its image and an index that records it on disk. */
  lemma ResolvedIsDurable(events: seq<Event>, ok: bool)
    ensures var s := Run(events);
            var t := Step(s, Continue(ok));
            s.flight.Some? && s.flight.value.phase == IndexRenamed ==>
              var r := s.flight.value.request;
              && t.settled == s.settled + [Settlement(r.serial, r.write, Some(s.flight.value.entry.info))]
              && OnDisk(t.disk, ImagePath(r.serial)) == Some(Image(r.data, r.write))
              && OnDisk(t.disk, IndexPath) == Some(Index(t.records))
              && r.serial in t.records && t.records[r.serial] == Entry(s.flight.value.entry.info, r.write)
  {
    RunKeepsInv(events);
    RevisionsIncrease(events);
  }

  lemma Extends(before: seq<Event>, e: Event)
    ensures Run(before + [e]) == Step(Run(before), e)
  {
    assert (before + [e])[..|before + [e]| - 1] == before;
  }

  /** The order of memory and files: image, its rename, the record, index, its rename. A failure only settles. */
  ghost predicate Moves(s: State, t: State, f: Flight, ok: bool) {
    var r := f.request;
    var failed := s.(flight := None, settled := s.settled + [Settlement(r.serial, r.write, None)]);
    match f.phase
    case WritingImage =>
      t == if !ok then failed
           else s.(disk := s.disk[ImageTemp(r.serial) := Image(r.data, r.write)],
                   flight := Some(f.(phase := RenamingImage)))
    case RenamingImage =>
      t == if !ok then failed
           else s.(disk := (s.disk - {ImageTemp(r.serial)})[ImagePath(r.serial) := Image(r.data, r.write)],
                   flight := Some(f.(phase := ImageRenamed)))
    case ImageRenamed =>
      t == s.(records := s.records[r.serial := f.entry], disk := s.disk[IndexTemp := Partial],
              flight := Some(f.(phase := WritingIndex)))
    case WritingIndex =>
      t == if !ok then failed
           else s.(disk := s.disk[IndexTemp := Index(s.records)], flight := Some(f.(phase := RenamingIndex)))
    case RenamingIndex =>
      t == if !ok then failed
           else s.(disk := (s.disk - {IndexTemp})[IndexPath := Index(s.records)],
                   flight := Some(f.(phase := IndexRenamed)))
    case IndexRenamed =>
      t == s.(flight := None, settled := s.settled + [Settlement(r.serial, r.write, Some(f.entry.info))])
  }

  lemma AdvanceMoves(s: State, f: Flight, ok: bool)
    requires s.flight == Some(f) && FlightFits(s, f)
    ensures Moves(s, Step(s, Continue(ok)), f, ok)
  {
    hide ImagesBelow, Queued;
    assert OnDisk(s.disk, ImageTemp(f.request.serial)) == OnDisk(s.disk, ImageTemp(f.request.serial));
    assert OnDisk(s.disk, IndexTemp) == OnDisk(s.disk, IndexTemp);
  }

  /** What one step of the operation in flight does, and what it is worth when it resolves. */
  lemma {:induction false} StepResolves(events: seq<Event>, ok: bool)
    requires Run(events).flight.Some?
    ensures var s, t := Run(events), Step(Run(events), Continue(ok));
            var f, r := s.flight.value, s.flight.value.request;
            && Moves(s, t, f, ok)
            && t.writes == s.writes
            && (f.phase == IndexRenamed ==>
                  && t.settled == s.settled + [Settlement(r.serial, r.write, Some(f.entry.info))]
                  && OnDisk(t.disk, ImagePath(r.serial)) == Some(Image(r.data, r.write))
                  && OnDisk(t.disk, IndexPath) == Some(Index(t.records))
                  && r.serial in t.records && t.records[r.serial] == Entry(f.entry.info, r.write)
                  && Tells(f.entry.info, r.serial, r.write, t.writes))
            && (t.flight.None? && f.phase != IndexRenamed ==>
                  t.settled == s.settled + [Settlement(r.serial, r.write, None)])
  {
    ResolvedIsDurable(events, ok);
    RunKeepsInv(events);
    AdvanceMoves(Run(events), Run(events).flight.value, ok);
    InfosAreTrue(events);
    AdvanceOnDisk(Run(events), Run(events).flight.value, ok);
    AdvanceInMemory(Run(events), Run(events).flight.value, ok);
    hide Advance, OnDisk, Moves, Tells, Run, FlightFits;
  }

  /** The store's fields and its disk. */
  class SnapshotStore {
    var disk: map<Path, File>
    var running: bool
    var records: Records
    /** `#writeQueue`: the operations chained behind the one in flight. */
    var queue: seq<Request>
    var flight: Option<Flight>
    var settled: seq<Settlement>
    var readers: map<nat, Read>
    var results: seq<ReadResult>
    var writes: seq<Request>
    /** History: every step taken. */
    ghost var log: seq<Event>

    function View(): State
      reads this
    {
      State(disk, running, records, queue, flight, settled, readers, results, writes)
    }

    /** Disk and memory are where the run of these steps ends. */
    ghost predicate Valid()
      reads this
    {
      View() == Run(log)
    }

    /**
     * Indexed serials have whole images no older than their entries, on disk
     * and in memory; reads were fresh; returned revisions increase.
     */
    ghost predicate Kept()
      reads this
    {
      Inv(View()) && RevisionsFit(View()) && InfosTell(View())
    }

    constructor ()
      ensures Valid() && Kept() && log == []
    {
      disk, running, records, queue, flight := map[], false, map[], [], None;
      settled, readers, results, writes := [], map[], [], [];
      log := [];
      new;
      RunKeepsInv([]);
      RevisionsIncrease([]);
      InfosAreTrue([]);
    }

    /** Note a step that was taken. */
    ghost method Took(e: Event)
      requires View() == Step(Run(log), e)
      modifies this`log
      ensures Valid() && Kept() && log == old(log) + [e]
    {
      hide Run, Step, Inv, RevisionsFit, InfosTell;
      InfosAreTrue(log + [e]);
      Extends(log, e);
      RunKeepsInv(log + [e]);
      RevisionsIncrease(log + [e]);
      log := log + [e];
    }

    /** The process dies, at whatever moment: only the disk is left. */
    method Dies()
      requires Valid()
      modifies this
      ensures Valid() && Kept() && log == old(log) + [Crash]
      ensures View() == State(old(disk), false, map[], [], None, [], map[], old(results), old(writes))
    {
      hide Run, Kept;
      running, records, queue, flight, settled, readers := false, map[], [], None, [], map[];
      Took(Crash);
    }

    /** Start on whatever a crash left: the index on disk is always readable, and is what the store remembers. */
    method LoadIndex()
      requires Valid() && !running
      modifies this
      ensures Valid() && Kept() && log == old(log) + [Initialize]
      ensures running && disk == old(disk)
      ensures records == if IndexPath in disk && disk[IndexPath].Index? then disk[IndexPath].records else map[]
    {
      RunKeepsInv(log);
      var readable := ReadIndex();
      assert readable by {
        IndexIsReadable(old(View()));
      }
      hide Run, Kept;
      Took(Initialize);
    }

    /** `initialize`: a missing index is a first run, an unreadable one an error. */
    method ReadIndex() returns (readable: bool)
      requires !running
      modifies this`running, this`records
      ensures View() == Step(old(View()), Initialize)
      ensures readable == running == (IndexPath in disk ==> disk[IndexPath].Index?)
    {
      if IndexPath in disk {
        if !disk[IndexPath].Index? {
          return false;
        }
        records := disk[IndexPath].records;
      }
      running := true;
      readable := true;
    }

    /** `write`: wait behind all earlier writes. */
    method EnqueueWrite(serial: string, data: bytes, contentType: string, source: Origin, capturedAt: string)
      requires Valid() && running
      modifies this
      ensures Valid() && Kept() && log == old(log) + [Write(serial, data, contentType, source, capturedAt)]
      ensures var request := Request(serial, data, contentType, source, capturedAt, |old(writes)|);
              View() == old(View()).(queue := old(queue) + [request], writes := old(writes) + [request])
    {
      hide Run, Kept;
      var request := Request(serial, data, contentType, source, capturedAt, |writes|);
      queue := queue + [request];
      writes := writes + [request];
      Took(Write(serial, data, contentType, source, capturedAt));
    }

    method SettleWith(r: Request, result: Option<Info>)
      modifies this`flight, this`settled
      ensures flight == None && settled == old(settled) + [Settlement(r.serial, r.write, result)]
    {
      flight := None;
      settled := settled + [Settlement(r.serial, r.write, result)];
    }

    /** The queued operation's body, up to its first file write. An empty image is refused. */
    method BeginOperation()
      requires Valid() && running && flight.None? && queue != []
      modifies this
      ensures Valid() && Kept() && log == old(log) + [Begin]
      ensures var r := old(queue)[0];
              View() ==
              if r.data == [] then
                old(View()).(queue := old(queue)[1..], settled := old(settled) + [Settlement(r.serial, r.write, None)])
              else
                var revision := if r.serial in old(records) then old(records)[r.serial].info.revision + 1 else 1;
                var entry := Entry(Info(r.capturedAt, r.contentType, r.source, revision), r.write);
                old(View()).(queue := old(queue)[1..], disk := old(disk)[ImageTemp(r.serial) := Partial],
                             flight := Some(Flight(r, entry, WritingImage)))
      ensures forall i :: flight.Some? && 0 <= i < |settled| && settled[i].serial == flight.value.request.serial
                          && settled[i].result.Some? ==>
                settled[i].result.value.revision < flight.value.entry.info.revision
    {
      hide Run, Inv;
      var r := queue[0];
      queue := queue[1..];
      if r.data == [] {
        SettleWith(r, None);
      } else {
        var revision := (if r.serial in records then records[r.serial].info.revision else 0) + 1;
        var info := Info(r.capturedAt, r.contentType, r.source, revision);
        disk := disk[ImageTemp(r.serial) := Partial];
        flight := Some(Flight(r, Entry(info, r.write), WritingImage));
      }
      Took(Begin);
    }

    /** What follows one file operation, up to the next; a write that resolves is durable. */
    method AfterFileOperation(ok: bool) returns (resolved: Option<Info>)
      requires Valid() && flight.Some?
      modifies this
      ensures Valid() && Kept() && log == old(log) + [Continue(ok)]
      ensures resolved.Some? <==> old(flight).value.phase == IndexRenamed
      ensures resolved.Some? ==>
                Tells(resolved.value, old(flight).value.request.serial, old(flight).value.request.write, writes)
      ensures Moves(old(View()), View(), old(flight).value, ok)
      ensures flight.None? && resolved.None? ==>
                settled == old(settled) +
                  [Settlement(old(flight).value.request.serial, old(flight).value.request.write, None)]
      ensures resolved.Some? ==>
                var r := old(flight).value.request;
                && settled == old(settled) + [Settlement(r.serial, r.write, resolved)]
                && OnDisk(disk, ImagePath(r.serial)) == Some(Image(r.data, r.write))
                && OnDisk(disk, IndexPath) == Some(Index(records))
                && r.serial in records && records[r.serial] == Entry(resolved.value, r.write)
    {
      StepResolves(log, ok);
      hide Run, Kept, Step, OnDisk, Moves, Tells;
      var f := flight.value;
      NextOperation(ok);
      Took(Continue(ok));
      resolved := if f.phase == IndexRenamed then Some(f.entry.info) else None;
    }

    /** The parts of `write`, `#writeIndex` and `atomicWrite` between their awaits. */
    method NextOperation(ok: bool)
      requires flight.Some?
      modifies this`disk, this`records, this`flight, this`settled
      ensures View() == Step(old(View()), Continue(ok))
    {
      var f := flight.value;
      var r := f.request;
      match f.phase
      case WritingImage =>
        if !ok {
          SettleWith(r, None);
          return;
        }
        disk := disk[ImageTemp(r.serial) := Image(r.data, r.write)];
        flight := Some(f.(phase := RenamingImage));
      case RenamingImage =>
        if !ok || ImageTemp(r.serial) !in disk {
          SettleWith(r, None);
          return;
        }
        RenameFile(ImageTemp(r.serial), ImagePath(r.serial));
        flight := Some(f.(phase := ImageRenamed));
      case ImageRenamed =>
        records := records[r.serial := f.entry];
        disk := disk[IndexTemp := Partial];
        flight := Some(f.(phase := WritingIndex));
      case WritingIndex =>
        if !ok {
          SettleWith(r, None);
          return;
        }
        disk := disk[IndexTemp := Index(records)];
        flight := Some(f.(phase := RenamingIndex));
      case RenamingIndex =>
        if !ok || IndexTemp !in disk {
          SettleWith(r, None);
          return;
        }
        RenameFile(IndexTemp, IndexPath);
        flight := Some(f.(phase := IndexRenamed));
      case IndexRenamed =>
        SettleWith(r, Some(f.entry.info));
    }

    method RenameFile(from: Path, to: Path)
      requires from in disk
      modifies this`disk
      ensures disk == Rename(old(disk), from, to)
    {
      var file := disk[from];
      disk := (disk - {from})[to := file];
    }

    /** `read` up to its await: null without an entry. */
    method BeginRead(id: nat, serial: string) returns (missing: bool)
      requires Valid() && running && id !in readers
      modifies this
      ensures Valid() && Kept() && log == old(log) + [StartRead(id, serial)]
      ensures missing == (serial !in records)
      ensures View() == if missing then old(View())
                        else old(View()).(readers := old(readers)[id := Read(serial, records[serial])])
    {
      hide Run, Kept;
      missing := serial !in records;
      if !missing {
        readers := readers[id := Read(serial, records[serial])];
      }
      Took(StartRead(id, serial));
    }

    /** The rest of `read`: a whole image, the bytes of one of the serial's writes, no older than the info. */
    method EndRead(id: nat) returns (data: bytes, info: Info)
      requires Valid() && id in readers
      modifies this
      ensures Valid() && Kept() && log == old(log) + [FinishRead(id)]
      ensures View() == old(View()).(readers := old(readers) - {id}, results := results)
      ensures var read := old(readers)[id];
              && info == read.entry.info && Tells(info, read.serial, read.entry.write, writes)
              && exists write :: read.entry.write <= write < |writes|
                                 && writes[write].serial == read.serial && writes[write].data == data
    {
      RunKeepsInv(log);
      var read := readers[id];
      assert Covers(disk, read.serial, read.entry);
      var file := disk[ImagePath(read.serial)];
      assert IsWhole(file, read.serial, writes);
      data, info := file.data, read.entry.info;
      assert read.entry.write <= file.write < |writes|
          && writes[file.write].serial == read.serial && writes[file.write].data == data;
      results := results + [ReadResult(read, Some(file))];
      readers := readers - {id};
      InfosAreTrue(log);
      hide Run, Inv, RevisionsFit;
      Took(FinishRead(id));
    }
  }

  lemma IndexIsReadable(s: State)
    requires Inv(s)
    ensures IndexPath in s.disk ==> s.disk[IndexPath].Index?
    ensures !s.running ==> s.records == map[]
  {
  }
}
