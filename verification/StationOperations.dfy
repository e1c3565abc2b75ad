/**
 * HomeBase operations of one station (`EufyProvider`): a chain of promises,
 * each opening one session, interleaved with pushes that change the station.
 */
module StationOperations {
  import opened Bytes

  datatype Storage = Storage(emmc: Option<nat>, hdd: Option<nat>)

  datatype Field = GuardMode | AlarmVolume | PromptVolume | AlarmTone

  datatype Station = Station(
    firmware: Option<string>,
    connected: bool,
    guardMode: Option<int>,
    effectiveMode: Option<int>,
    alarmActive: Option<bool>,
    alarmVolume: Option<int>,
    promptVolume: Option<int>,
    alarmTone: Option<int>,
    storage: Storage)
  {
    function Get(field: Field): Option<int> {
      match field
      case GuardMode => guardMode
      case AlarmVolume => alarmVolume
      case PromptVolume => promptVolume
      case AlarmTone => alarmTone
    }
  }

  /** `initialHomeBaseState`, for a device with this firmware. */
  function InitialStation(firmware: Option<string>): Station {
    Station(firmware, false, None, None, None, None, None, None, Storage(None, None))
  }

  /** A parsed camera-info frame. */
  datatype Observed = Observed(
    firmware: Option<string>,
    guardMode: Option<int>,
    effectiveMode: Option<int>,
    alarmVolume: Option<int>,
    promptVolume: Option<int>,
    alarmTone: Option<int>,
    storage: Option<Storage>)
  {
    function Get(field: Field): Option<int> {
      match field
      case GuardMode => guardMode
      case AlarmVolume => alarmVolume
      case PromptVolume => promptVolume
      case AlarmTone => alarmTone
    }
  }

  /** `mergeHomeBaseState`. */
  function Merge(existing: Station, observed: Observed): Station {
    existing.(
      firmware := if observed.firmware.Some? then observed.firmware else existing.firmware,
      connected := true,
      guardMode := observed.guardMode,
      effectiveMode := observed.effectiveMode,
      alarmVolume := observed.alarmVolume,
      promptVolume := observed.promptVolume,
      alarmTone := observed.alarmTone,
      storage := if observed.storage.Some? then observed.storage.value else existing.storage)
  }

  const GUARD_MODES: set<int> := {0, 1, 2, 3, 4, 5, 47, 63}
  const SILENT_ALARMS: set<int> := {0, 1, 15, 16, 17}

  function GuardOr(pushed: Option<int>, current: Option<int>): Option<int> {
    if pushed.Some? && pushed.value in GUARD_MODES then pushed else current
  }

  datatype Kind = Write(field: Field, expected: int) | Refresh

  datatype Status =
    | Waiting(after: Option<nat>)
    | StoppingMedia
    | Connecting
    | Acking
    | Reading
    | ReadingStorage(info: Observed)
    | Done(result: Option<Station>)

  /** An operation; the clock readings say when its acknowledgement and its camera-info frame came. */
  datatype Operation = Operation(kind: Kind, status: Status, ackedAt: Option<nat>, infoAt: Option<nat>)

  predicate InSession(status: Status) {
    status.Connecting? || status.Acking? || status.Reading? || status.ReadingStorage?
  }

  /**
   * `entry` is the station's entry in the operation map, `open` are the
   * operations between opening and closing their session, `started` the order
   * in which operations began and `siren` the value of the latest siren push.
   */
  datatype State = State(
    station: Station,
    operations: seq<Operation>,
    entry: Option<nat>,
    open: set<nat>,
    started: seq<nat>,
    siren: Option<bool>,
    clock: nat)

  function Fresh(firmware: Option<string>): State {
    State(InitialStation(firmware), [], None, {}, [], None, 0)
  }

  datatype Event =
    | Call(kind: Kind)
    | Start(i: nat, known: bool, mediaActive: bool)
    | MediaStopped(i: nat, ok: bool)
    | Connected(i: nat, ok: bool)
    | Acked(i: nat, ok: bool)
    | CameraInfo(i: nat, frame: Option<Observed>)
    | StorageInfo(i: nat, storage: Option<Storage>)
    | Cleanup(i: nat)
    | GuardPush(guardMode: Option<int>, effectiveMode: Option<int>)
    | SirenPush(alarmType: int)

  /** A waiting operation may begin once the promise it is chained to has settled, either way. */
  predicate CanStart(s: State, i: nat) {
    && i < |s.operations|
    && s.operations[i].status.Waiting?
    && var after := s.operations[i].status.after;
       after.None? || (after.value < |s.operations| && s.operations[after.value].status.Done?)
  }

  /** Nothing but operation `i`, the station and the open sessions differs. */
  ghost predicate OnlyTouches(s: State, t: State, i: nat)
    requires i < |s.operations|
  {
    && |t.operations| == |s.operations|
    && (forall j :: 0 <= j < |s.operations| && j != i ==> t.operations[j] == s.operations[j])
    && t.operations[i].kind == s.operations[i].kind
    && t.entry == s.entry && t.started == s.started && t.siren == s.siren && t.clock == s.clock
  }

  function Set(s: State, i: nat, status: Status): (t: State)
    requires i < |s.operations|
    ensures OnlyTouches(s, t, i)
  {
    s.(operations := s.operations[i := s.operations[i].(status := status)])
  }

  function Open(s: State, i: nat): (t: State)
    requires i < |s.operations|
    ensures OnlyTouches(s, t, i)
  {
    Set(s, i, Connecting).(open := s.open + {i})
  }

  /** The `catch` and `finally` of a session that failed. */
  function Fail(s: State, i: nat): (t: State)
    requires i < |s.operations|
    ensures OnlyTouches(s, t, i)
  {
    Set(s, i, Done(None)).(station := s.station.(connected := false), open := s.open - {i})
  }

  /** The session's success: merge into the station as it is now, and close. */
  function Succeed(s: State, i: nat, observed: Observed): (t: State)
    requires i < |s.operations|
    ensures OnlyTouches(s, t, i)
  {
    var updated := Merge(s.station, observed);
    Set(s, i, Done(Some(updated))).(station := updated, open := s.open - {i})
  }

  function BeginBody(s: State, i: nat, known: bool, mediaActive: bool): State
    requires i < |s.operations|
  {
    var begun := s.(started := s.started + [i]);
    if !known then Set(begun, i, Done(None))
    else if s.operations[i].kind.Write? then Set(begun, i, StoppingMedia)
    else if mediaActive then Set(begun, i, Done(Some(s.station)))
    else Open(begun, i)
  }

  function ReceiveInfo(s: State, i: nat, frame: Option<Observed>): (t: State)
    requires i < |s.operations|
    ensures OnlyTouches(s, t, i)
  {
    match frame
    case None => Fail(s, i)
    case Some(observed) =>
      var seen := s.(operations := s.operations[i := s.operations[i].(infoAt := Some(s.clock))]);
      match s.operations[i].kind
      case Write(field, expected) =>
        if observed.Get(field) != Some(expected) then Fail(seen, i) else Succeed(seen, i, observed)
      case Refresh => Set(seen, i, ReadingStorage(observed))
  }

  function Apply(s: State, e: Event): State {
    match e
    case Call(kind) =>
      s.(operations := s.operations + [Operation(kind, Waiting(s.entry), None, None)],
         entry := Some(|s.operations|))
    case Start(i, known, mediaActive) => if !CanStart(s, i) then s else BeginBody(s, i, known, mediaActive)
    case MediaStopped(i, ok) =>
      if i >= |s.operations| || !s.operations[i].status.StoppingMedia? then s
      else if ok then Open(s, i) else Set(s, i, Done(None))
    case Connected(i, ok) =>
      if i >= |s.operations| || !s.operations[i].status.Connecting? then s
      else if !ok then Fail(s, i)
      else Set(s, i, if s.operations[i].kind.Write? then Acking else Reading)
    case Acked(i, ok) =>
      if i >= |s.operations| || !s.operations[i].status.Acking? then s
      else if !ok then Fail(s, i)
      else Set(s.(operations := s.operations[i := s.operations[i].(ackedAt := Some(s.clock))]), i, Reading)
    case CameraInfo(i, frame) =>
      if i >= |s.operations| || !s.operations[i].status.Reading? then s else ReceiveInfo(s, i, frame)
    case StorageInfo(i, storage) =>
      if i >= |s.operations| || !s.operations[i].status.ReadingStorage? then s
      else Succeed(s, i, s.operations[i].status.info.(storage := storage))
    case Cleanup(i) =>
      if i >= |s.operations| || !s.operations[i].status.Done? || s.entry != Some(i) then s
      else s.(entry := None)
    case GuardPush(guardMode, effectiveMode) =>
      s.(station := s.station.(guardMode := GuardOr(guardMode, s.station.guardMode),
                               effectiveMode := GuardOr(effectiveMode, s.station.effectiveMode)))
    case SirenPush(alarmType) =>
      var active := Some(alarmType !in SILENT_ALARMS);
      s.(station := s.station.(alarmActive := active), siren := active)
  }

  /** One step of the world. */
  function Step(s: State, e: Event): State {
    Apply(s, e).(clock := s.clock + 1)
  }

  function Run(firmware: Option<string>, events: seq<Event>): State {
    if events == [] then Fresh(firmware)
    else Step(Run(firmware, events[..|events| - 1]), events[|events| - 1])
  }

  // Serial execution

  /** All operations before `n` have settled. */
  ghost predicate SettledBefore(s: State, n: nat) {
    forall i :: 0 <= i < n && i < |s.operations| ==> s.operations[i].status.Done?
  }

  ghost predicate ChainFits(s: State) {
    && (forall j :: 0 <= j < |s.operations| && !s.operations[j].status.Waiting? ==> SettledBefore(s, j))
    && (forall j :: 0 <= j < |s.operations| && s.operations[j].status.Waiting? ==>
          match s.operations[j].status.after
          case None => SettledBefore(s, j)
          case Some(p) => j == p + 1)
    && (match s.entry
        case None => SettledBefore(s, |s.operations|)
        case Some(e) => |s.operations| == e + 1)
  }

  ghost predicate OpenFits(s: State) {
    forall i: nat :: i in s.open <==> i < |s.operations| && InSession(s.operations[i].status)
  }

  /** Operations began in call order, each once. */
  ghost predicate StartedInOrder(s: State) {
    && (forall n :: 0 <= n < |s.started| ==> s.started[n] == n)
    && |s.started| <= |s.operations|
    && (forall i :: 0 <= i < |s.operations| ==> (s.operations[i].status.Waiting? <==> i >= |s.started|))
  }

  ghost predicate IsSerial(s: State) {
    ChainFits(s) && OpenFits(s) && StartedInOrder(s)
  }

  /** An operation that runs moves on; whether its session is open follows its status. */
  ghost predicate Moves(s: State, t: State, i: nat)
    requires i < |s.operations|
  {
    && OnlyTouches(s, t, i)
    && !t.operations[i].status.Waiting?
    && t.open == if InSession(t.operations[i].status) then s.open + {i} else s.open - {i}
  }

  lemma MoveKeepsSerial(s: State, t: State, i: nat)
    requires IsSerial(s) && i < |s.operations|
    requires !s.operations[i].status.Waiting? && !s.operations[i].status.Done?
    requires Moves(s, t, i)
    ensures IsSerial(t)
  {
    forall n | SettledBefore(s, n) ensures SettledBefore(t, n) {
    }
    hide SettledBefore;
  }

  /** The only operation that can start is the next one, and everything before it has settled. */
  lemma StartsNext(s: State, i: nat)
    requires IsSerial(s) && CanStart(s, i)
    ensures i == |s.started| && SettledBefore(s, i)
  {
    if s.operations[i].status.after.Some? {
      var p := s.operations[i].status.after.value;
      assert SettledBefore(s, p);
      assert p < |s.started|;
    } else if i > 0 {
      assert s.operations[i - 1].status.Done?;
    }
  }

  lemma StartKeepsSerial(s: State, i: nat, known: bool, mediaActive: bool)
    requires IsSerial(s) && CanStart(s, i)
    ensures IsSerial(BeginBody(s, i, known, mediaActive))
  {
    StartsNext(s, i);
    var t := BeginBody(s, i, known, mediaActive);
    assert forall j :: 0 <= j < |s.operations| && j != i ==> t.operations[j] == s.operations[j];
    forall n | SettledBefore(s, n) ensures SettledBefore(t, n) {
    }
    hide SettledBefore;
  }

  lemma CallKeepsSerial(s: State, kind: Kind)
    requires IsSerial(s)
    ensures IsSerial(Apply(s, Call(kind)))
  {
    var t := Apply(s, Call(kind));
    forall n: nat | SettledBefore(s, n) && n <= |s.operations| ensures SettledBefore(t, n) {
    }
  }

  lemma CleanupKeepsSerial(s: State, i: nat)
    requires IsSerial(s)
    ensures IsSerial(Apply(s, Cleanup(i)))
  {
    var t := Apply(s, Cleanup(i));
    assert forall n: nat :: SettledBefore(s, n) ==> SettledBefore(t, n);
  }

  /** The operation a session event belongs to. */
  function Subject(e: Event): Option<nat> {
    match e
    case MediaStopped(i, _) => Some(i)
    case Connected(i, _) => Some(i)
    case Acked(i, _) => Some(i)
    case CameraInfo(i, _) => Some(i)
    case StorageInfo(i, _) => Some(i)
    case _ => None
  }

  /** A session event moves its own operation, which is running, or changes nothing. */
  lemma SessionEventMoves(s: State, e: Event)
    requires OpenFits(s) && Subject(e).Some?
    ensures var i, t := Subject(e).value, Apply(s, e);
            t == s || (i < |s.operations| && Moves(s, t, i) &&
                       !s.operations[i].status.Waiting? && !s.operations[i].status.Done?)
  {
  }

  lemma {:induction false} ApplyKeepsSerial(s: State, e: Event)
    requires IsSerial(s)
    ensures IsSerial(Apply(s, e))
  {
    match e
    case Call(kind) => CallKeepsSerial(s, kind);
    case Start(i, known, mediaActive) =>
      if CanStart(s, i) {
        StartKeepsSerial(s, i, known, mediaActive);
      }
    case Cleanup(i) => CleanupKeepsSerial(s, i);
    case GuardPush(_, _) => OnlyStation(s, Apply(s, e));
    case SirenPush(_) => OnlyStation(s, Apply(s, e));
    case _ =>
      hide Apply;
      SessionEventMoves(s, e);
      var t := Apply(s, e);
      if t != s {
        MoveKeepsSerial(s, t, Subject(e).value);
      }
  }

  lemma OnlyStation(s: State, t: State)
    requires IsSerial(s)
    requires t.operations == s.operations && t.entry == s.entry && t.open == s.open && t.started == s.started
    ensures IsSerial(t)
  {
    assert forall n: nat :: SettledBefore(s, n) ==> SettledBefore(t, n);
  }

  lemma {:induction false} RunIsSerial(firmware: Option<string>, events: seq<Event>)
    ensures IsSerial(Run(firmware, events))
  {
    hide Apply, IsSerial;
    if events == [] {
      FreshIsSerial(firmware);
    } else {
      var s := Run(firmware, events[..|events| - 1]);
      RunIsSerial(firmware, events[..|events| - 1]);
      ApplyKeepsSerial(s, events[|events| - 1]);
      OnlyStation(Apply(s, events[|events| - 1]), Step(s, events[|events| - 1]));
    }
  }

  lemma FreshIsSerial(firmware: Option<string>)
    ensures IsSerial(Fresh(firmware))
  {
  }

  /**
   * Station operations are serial: in every run at most one session is open,
   * operations begin in call order, and whenever one runs all earlier ones
   * have settled.
   */
  lemma OneSessionAtATime(firmware: Option<string>, events: seq<Event>, i: nat, j: nat)
    requires var s := Run(firmware, events);
             i < |s.operations| && !s.operations[i].status.Waiting? && j < i
    ensures var s := Run(firmware, events);
            && s.operations[j].status.Done?
            && j !in s.open
            && (forall n :: 0 <= n < |s.started| ==> s.started[n] == n)
            && i < |s.started|
  {
    RunIsSerial(firmware, events);
    var s := Run(firmware, events);
    assert SettledBefore(s, i);
  }

  lemma SessionsDoNotOverlap(firmware: Option<string>, events: seq<Event>, i: nat, j: nat)
    requires i in Run(firmware, events).open && j in Run(firmware, events).open
    ensures i == j
  {
    RunIsSerial(firmware, events);
    var s := Run(firmware, events);
    assert SettledBefore(s, i) && SettledBefore(s, j);
  }

  /** The map entry is the newest operation, and is gone only when every operation has settled. */
  lemma EntryIsNewest(firmware: Option<string>, events: seq<Event>)
    ensures var s := Run(firmware, events);
            match s.entry
            case Some(e) => |s.operations| == e + 1
            case None => forall i :: 0 <= i < |s.operations| ==> s.operations[i].status.Done?
  {
    RunIsSerial(firmware, events);
    var s := Run(firmware, events);
    if s.entry.None? {
      assert SettledBefore(s, |s.operations|);
    }
  }

  /**
   * No operation blocks its successors: when nothing runs and something
   * waits, the oldest waiting operation can start, however those before it ended.
   */
  lemma NextCanStart(firmware: Option<string>, events: seq<Event>)
    requires var s := Run(firmware, events);
             && |s.started| < |s.operations|
             && forall i :: 0 <= i < |s.started| ==> s.operations[i].status.Done?
    ensures CanStart(Run(firmware, events), |Run(firmware, events).started|)
  {
    hide Run;
    RunIsSerial(firmware, events);
  }

  // Station state

  /** What the latest siren push says: active, unless its type is one of five that are silent. */
  function LatestSiren(events: seq<Event>): Option<bool> {
    if events == [] then None
    else
      var e := events[|events| - 1];
      if e.SirenPush? then
        Some(e.alarmType != 0 && e.alarmType != 1 && e.alarmType != 15 && e.alarmType != 16 && e.alarmType != 17)
      else LatestSiren(events[..|events| - 1])
  }

  /** The station's alarm flag is always what the latest siren push said. */
  lemma {:induction false} AlarmFollowsPushes(firmware: Option<string>, events: seq<Event>)
    ensures Run(firmware, events).station.alarmActive == LatestSiren(events) == Run(firmware, events).siren
  {
    if events == [] {
    } else {
      AlarmFollowsPushes(firmware, events[..|events| - 1]);
      AlarmIsKept(Run(firmware, events[..|events| - 1]), events[|events| - 1]);
      SirenIsLatest(Run(firmware, events[..|events| - 1]), events[|events| - 1]);
      hide Apply;
    }
  }

  lemma SirenIsLatest(s: State, e: Event)
    ensures Apply(s, e).siren ==
            if e.SirenPush? then
              Some(e.alarmType != 0 && e.alarmType != 1 && e.alarmType != 15 && e.alarmType != 16 && e.alarmType != 17)
            else s.siren
  {
    hide Merge, GuardOr;
  }

  lemma AlarmIsKept(s: State, e: Event)
    requires s.station.alarmActive == s.siren
    ensures Apply(s, e).station.alarmActive == Apply(s, e).siren
  {
  }

  /** The acknowledgement of a write precedes the frame that confirms it, and both precede now. */
  ghost predicate Confirmed(op: Operation, clock: nat) {
    && (op.ackedAt.Some? ==> op.ackedAt.value < clock)
    && (op.infoAt.Some? ==> op.infoAt.value < clock)
    && (op.kind.Write? && op.status.Reading? ==> op.ackedAt.Some? && op.infoAt.None?)
    && (op.kind.Write?
        && (op.status.Acking? || op.status.Connecting? || op.status.StoppingMedia? || op.status.Waiting?) ==>
          op.ackedAt.None? && op.infoAt.None?)
    && (op.kind.Write? ==> !op.status.ReadingStorage?)
    && (op.kind.Write? && op.status.Done? && op.status.result.Some? ==>
          && op.status.result.value.Get(op.kind.field) == Some(op.kind.expected)
          && op.ackedAt.Some? && op.infoAt.Some? && op.ackedAt.value < op.infoAt.value)
  }

  ghost predicate WritesConfirmed(s: State) {
    forall i :: 0 <= i < |s.operations| ==> Confirmed(s.operations[i], s.clock)
  }

  /** The merge takes every observed field, keeps what was not read, and never touches the alarm flag. */
  lemma MergeStores(existing: Station, observed: Observed)
    ensures var merged := Merge(existing, observed);
            && merged.connected && merged.alarmActive == existing.alarmActive
            && (forall field: Field :: merged.Get(field) == observed.Get(field))
            && merged.effectiveMode == observed.effectiveMode
            && merged.firmware == (if observed.firmware.Some? then observed.firmware else existing.firmware)
            && merged.storage == (if observed.storage.Some? then observed.storage.value else existing.storage)
  {
  }

  lemma InfoIsConfirmed(s: State, at: nat, frame: Option<Observed>, i: nat)
    requires at < |s.operations| && s.operations[at].status.Reading?
    requires i < |s.operations| && Confirmed(s.operations[i], s.clock)
    ensures Confirmed(ReceiveInfo(s, at, frame).operations[i], s.clock + 1)
  {
    if at == i && frame.Some? && s.operations[i].kind.Write? {
      MergeStores(s.station, frame.value);
    }
    hide Merge;
  }

  /** Only its own events change an operation. */
  lemma OthersStay(s: State, e: Event, i: nat)
    requires i < |s.operations| && Subject(e) != Some(i) && (e.Start? ==> e.i != i)
    ensures i < |Apply(s, e).operations| && Apply(s, e).operations[i] == s.operations[i]
  {
    hide Merge, GuardOr, Station.Get, Observed.Get;
  }

  lemma StaysConfirmed(op: Operation, clock: nat)
    requires Confirmed(op, clock)
    ensures Confirmed(op, clock + 1)
  {
  }

  lemma StartIsConfirmed(s: State, e: Event, i: nat)
    requires i < |s.operations| && Confirmed(s.operations[i], s.clock) && e.Start? && e.i == i
    ensures i < |Apply(s, e).operations| && Confirmed(Apply(s, e).operations[i], s.clock + 1)
  {
    hide Merge;
  }

  lemma SubjectIsConfirmed(s: State, e: Event, i: nat)
    requires i < |s.operations| && Confirmed(s.operations[i], s.clock) && Subject(e) == Some(i) && !e.CameraInfo?
    ensures i < |Apply(s, e).operations| && Confirmed(Apply(s, e).operations[i], s.clock + 1)
  {
    hide ReceiveInfo, Merge;
  }

  lemma StepConfirms(s: State, e: Event, i: nat)
    requires i < |s.operations| && Confirmed(s.operations[i], s.clock)
    ensures i < |Apply(s, e).operations| && Confirmed(Apply(s, e).operations[i], s.clock + 1)
  {
    hide Apply, ReceiveInfo, Confirmed;
    if e.CameraInfo? && e.i == i {
      CameraInfoStep(s, e);
      if s.operations[i].status.Reading? {
        InfoIsConfirmed(s, i, e.frame, i);
      } else {
        StaysConfirmed(s.operations[i], s.clock);
      }
    } else if Subject(e) == Some(i) {
      SubjectIsConfirmed(s, e, i);
    } else if e.Start? && e.i == i {
      StartIsConfirmed(s, e, i);
    } else {
      OthersStay(s, e, i);
      StaysConfirmed(s.operations[i], s.clock);
    }
  }

  lemma CameraInfoStep(s: State, e: Event)
    requires e.CameraInfo? && e.i < |s.operations|
    ensures Apply(s, e) == if s.operations[e.i].status.Reading? then ReceiveInfo(s, e.i, e.frame) else s
  {
    hide ReceiveInfo;
  }

  lemma {:induction false} RunConfirmsWrites(firmware: Option<string>, events: seq<Event>)
    ensures WritesConfirmed(Run(firmware, events))
  {
    if events == [] {
    } else {
      var s, e := Run(firmware, events[..|events| - 1]), events[|events| - 1];
      RunConfirmsWrites(firmware, events[..|events| - 1]);
      hide Confirmed;
      forall i | 0 <= i < |s.operations|
        ensures i < |Apply(s, e).operations| && Confirmed(Apply(s, e).operations[i], s.clock + 1)
      {
        StepConfirms(s, e, i);
      }
      if e.Call? {
        NewIsConfirmed(Apply(s, e).operations[|s.operations|], s.clock + 1);
      }
    }
  }

  lemma NewIsConfirmed(op: Operation, clock: nat)
    requires op.status.Waiting? && op.ackedAt.None? && op.infoAt.None?
    ensures Confirmed(op, clock)
  {
  }

  /**
   * A write that resolved returned a station holding the requested value,
   * taken from a camera-info frame that came after its acknowledgement.
   */
  lemma ResolvedWritesAreConfirmed(firmware: Option<string>, events: seq<Event>, i: nat)
    requires var s := Run(firmware, events);
             && i < |s.operations| && s.operations[i].kind.Write?
             && s.operations[i].status.Done? && s.operations[i].status.result.Some?
    ensures var op := Run(firmware, events).operations[i];
            && op.status.result.value.Get(op.kind.field) == Some(op.kind.expected)
            && op.ackedAt.Some? && op.infoAt.Some? && op.ackedAt.value < op.infoAt.value
  {
    RunConfirmsWrites(firmware, events);
  }

  /**
   * What an event of an open session does to the station: a settling success
   * stores exactly what the operation returns, a settling failure clears
   * `connected` and nothing else, and anything short of settling changes nothing.
   */
  lemma SessionEventsOnStation(s: State, e: Event, i: nat)
    requires Subject(e) == Some(i) && i < |s.operations| && InSession(s.operations[i].status)
    ensures var t := Apply(s, e);
            && i < |t.operations|
            && var status := t.operations[i].status;
            if !status.Done? then t.station == s.station
            else if status.result.Some? then t.station == status.result.value && t.station.connected
            else t.station == s.station.(connected := false)
  {
  }

  /** Before a session is open nothing an operation does changes the station; a push changes only its own fields. */
  lemma OtherEventsOnStation(s: State, e: Event)
    requires Subject(e).Some? ==>
               Subject(e).value >= |s.operations| || !InSession(s.operations[Subject(e).value].status)
    ensures Apply(s, e).station ==
            if e.GuardPush? then
              s.station.(guardMode := GuardOr(e.guardMode, s.station.guardMode),
                         effectiveMode := GuardOr(e.effectiveMode, s.station.effectiveMode))
            else if e.SirenPush? then s.station.(alarmActive := Some(e.alarmType !in SILENT_ALARMS))
            else s.station
  {
  }

  // How an operation goes on

  /**
   * Every step of an operation: which event takes it from where to where. A
   * write stops media first and is acknowledged before it reads; a refresh
   * during media is answered from memory and otherwise reads the HomeBase.
   */
  lemma OperationSteps(s: State, e: Event, i: nat)
    requires i < |s.operations|
    ensures i < |Apply(s, e).operations|
    ensures var op, next := s.operations[i], Apply(s, e).operations[i];
            && next.kind == op.kind
            && next.status ==
               match op.status
               case Waiting(_) =>
                 if !(e.Start? && e.i == i && CanStart(s, i)) then op.status
                 else if !e.known then Done(None)
                 else if op.kind.Write? then StoppingMedia
                 else if e.mediaActive then Done(Some(s.station))
                 else Connecting
               case StoppingMedia =>
                 if e == MediaStopped(i, true) then Connecting
                 else if e == MediaStopped(i, false) then Done(None)
                 else op.status
               case Connecting =>
                 if e == Connected(i, true) then (if op.kind.Write? then Acking else Reading)
                 else if e == Connected(i, false) then Done(None)
                 else op.status
               case Acking =>
                 if e == Acked(i, true) then Reading
                 else if e == Acked(i, false) then Done(None)
                 else op.status
               case Reading =>
                 if !(e.CameraInfo? && e.i == i) then op.status
                 else if e.frame.None? then Done(None)
                 else if op.kind.Refresh? then ReadingStorage(e.frame.value)
                 else if e.frame.value.Get(op.kind.field) == Some(op.kind.expected)
                 then Done(Some(Merge(s.station, e.frame.value)))
                 else Done(None)
               case ReadingStorage(info) =>
                 if e.StorageInfo? && e.i == i then Done(Some(Merge(s.station, info.(storage := e.storage))))
                 else op.status
               case Done(_) => op.status
  {
    hide Merge, GuardOr, Station.Get, Observed.Get;
    if !(Subject(e) == Some(i) || (e.Start? && e.i == i)) {
      OthersStay(s, e, i);
    }
  }

  /** A new operation waits. */
  lemma NewOperationWaits(s: State, e: Event, i: nat)
    requires |s.operations| <= i < |Apply(s, e).operations|
    ensures e.Call? && i == |s.operations|
    ensures Apply(s, e).operations[i] == Operation(e.kind, Waiting(s.entry), None, None)
  {
    hide Merge, GuardOr;
  }

  /** One more event, for an operation that no longer waits after it. */
  lemma {:induction false} LastStep(firmware: Option<string>, events: seq<Event>, i: nat)
    requires i < |Run(firmware, events).operations| && !Run(firmware, events).operations[i].status.Waiting?
    ensures events != []
    ensures var s, e := Run(firmware, events[..|events| - 1]), events[|events| - 1];
            && i < |s.operations| && Run(firmware, events) == Step(s, e)
            && s.operations[i].kind == Run(firmware, events).operations[i].kind
  {
    var s, e := Run(firmware, events[..|events| - 1]), events[|events| - 1];
    hide Apply;
    if i < |s.operations| {
      OperationSteps(s, e, i);
    } else {
      NewOperationWaits(s, e, i);
    }
  }

  /** A write opens its session only after its media was stopped. */
  lemma {:induction false} WritesWaitForMedia(firmware: Option<string>, events: seq<Event>, i: nat) returns (n: nat)
    requires var s := Run(firmware, events);
             i < |s.operations| && s.operations[i].kind.Write? && InSession(s.operations[i].status)
    ensures n < |events| && events[n] == MediaStopped(i, true)
  {
    LastStep(firmware, events, i);
    hide Apply;
    var before, e := events[..|events| - 1], events[|events| - 1];
    OperationSteps(Run(firmware, before), e, i);
    if e == MediaStopped(i, true) {
      n := |events| - 1;
    } else {
      n := WritesWaitForMedia(firmware, before, i);
    }
  }

  /** A refresh opens its session only if it started without media. */
  lemma {:induction false} RefreshesStartIdle(firmware: Option<string>, events: seq<Event>, i: nat) returns (n: nat)
    requires var s := Run(firmware, events);
             i < |s.operations| && s.operations[i].kind.Refresh? && InSession(s.operations[i].status)
    ensures n < |events| && events[n] == Start(i, true, false)
  {
    RunIsSerial(firmware, events[..|events| - 1]);
    LastStep(firmware, events, i);
    hide Apply, IsSerial;
    var before, e := events[..|events| - 1], events[|events| - 1];
    RefreshNeverStopsMedia(firmware, before, i);
    OperationSteps(Run(firmware, before), e, i);
    if e == Start(i, true, false) {
      n := |events| - 1;
    } else {
      n := RefreshesStartIdle(firmware, before, i);
    }
  }

  /** A refresh never waits for media to stop, nor for an acknowledgement. */
  lemma {:induction false} RefreshNeverStopsMedia(firmware: Option<string>, events: seq<Event>, i: nat)
    ensures var s := Run(firmware, events);
            i < |s.operations| && s.operations[i].kind.Refresh? ==>
              !s.operations[i].status.StoppingMedia? && !s.operations[i].status.Acking?
  {
    hide Apply;
    var s := Run(firmware, events);
    if i >= |s.operations| || s.operations[i].status.Waiting? {
    } else {
      LastStep(firmware, events, i);
      RefreshNeverStopsMedia(firmware, events[..|events| - 1], i);
      OperationSteps(Run(firmware, events[..|events| - 1]), events[|events| - 1], i);
    }
  }

  /** What a refresh reads from its camera-info frame it carries on. */
  lemma {:induction false} StorageFollowsInfo(firmware: Option<string>, events: seq<Event>, i: nat) returns (n: nat)
    requires var s := Run(firmware, events); i < |s.operations| && s.operations[i].status.ReadingStorage?
    ensures n < |events| && events[n] == CameraInfo(i, Some(Run(firmware, events).operations[i].status.info))
    ensures IsOpen(Run(firmware, events[..n]), i)
  {
    LastStep(firmware, events, i);
    hide Apply;
    var before, e := events[..|events| - 1], events[|events| - 1];
    OperationSteps(Run(firmware, before), e, i);
    if Run(firmware, before).operations[i].status.Reading? {
      n := |events| - 1;
    } else {
      n := StorageFollowsInfo(firmware, before, i);
      assert before[..n] == events[..n];
    }
  }

  /** How a refresh came by its result. */
  datatype Source = FromMemory(started: nat) | FromHomeBase(info: nat, storage: nat)

  ghost predicate Explains(firmware: Option<string>, events: seq<Event>, i: nat, returned: Station, source: Source) {
    match source
    case FromMemory(n) =>
      && n < |events| && events[n] == Start(i, true, true)
      && returned == Run(firmware, events[..n]).station
    case FromHomeBase(n, m) =>
      && n < m < |events| && events[n].CameraInfo? && events[n].i == i && events[n].frame.Some?
      && events[m].StorageInfo? && events[m].i == i
      && IsOpen(Run(firmware, events[..n]), i) && IsOpen(Run(firmware, events[..m]), i)
      && returned == Merge(Run(firmware, events[..m]).station, events[n].frame.value.(storage := events[m].storage))
  }

  /**
   * A refresh that resolved was either started while media was active, and
   * returned the station as it was then, or received in its own open session a
   * camera-info frame and then a storage answer, and returned both merged into
   * the station as it was then.
   */
  lemma {:induction false} RefreshesAreRead(firmware: Option<string>, events: seq<Event>, i: nat)
    returns (source: Source)
    requires var s := Run(firmware, events);
             && i < |s.operations| && s.operations[i].kind.Refresh?
             && s.operations[i].status.Done? && s.operations[i].status.result.Some?
    ensures Explains(firmware, events, i, Run(firmware, events).operations[i].status.result.value, source)
  {
    LastStep(firmware, events, i);
    hide Apply, Merge;
    var last := |events| - 1;
    var before, e := events[..last], events[last];
    var s := Run(firmware, before);
    RefreshNeverStopsMedia(firmware, before, i);
    OperationSteps(s, e, i);
    if s.operations[i].status.Waiting? {
      source := FromMemory(last);
    } else if s.operations[i].status.ReadingStorage? {
      var n := StorageFollowsInfo(firmware, before, i);
      assert before[..n] == events[..n];
      source := FromHomeBase(n, last);
    } else {
      source := RefreshesAreRead(firmware, before, i);
      ExplainsLater(firmware, events, i, Run(firmware, events).operations[i].status.result.value, source);
    }
  }

  lemma ExplainsLater(firmware: Option<string>, events: seq<Event>, i: nat, returned: Station, source: Source)
    requires events != [] && Explains(firmware, events[..|events| - 1], i, returned, source)
    ensures Explains(firmware, events, i, returned, source)
  {
    hide Run, Merge, IsOpen;
    var before := events[..|events| - 1];
    assert source.FromMemory? ==> before[..source.started] == events[..source.started];
    assert source.FromHomeBase? ==>
        before[..source.info] == events[..source.info] && before[..source.storage] == events[..source.storage];
  }

  /** What the pushes among some events make of a station. */
  function Pushed(station: Station, events: seq<Event>): Station {
    if events == [] then station
    else
      var before, e := Pushed(station, events[..|events| - 1]), events[|events| - 1];
      match e
      case GuardPush(guardMode, effectiveMode) =>
        before.(guardMode := GuardOr(guardMode, before.guardMode),
                effectiveMode := GuardOr(effectiveMode, before.effectiveMode))
      case SirenPush(alarmType) => before.(alarmActive := Some(alarmType !in SILENT_ALARMS))
      case _ => before
  }

  lemma Extends(firmware: Option<string>, before: seq<Event>, e: Event)
    ensures Run(firmware, before + [e]) == Step(Run(firmware, before), e)
  {
    assert (before + [e])[..|before + [e]| - 1] == before;
  }

  /** Operation `i` has its session open. */
  predicate IsOpen(s: State, i: nat) {
    i < |s.operations| && InSession(s.operations[i].status)
  }

  /** While an operation's session stays open, an event changes the station only if it is a push. */
  lemma OpenStepOnStation(s: State, e: Event, i: nat)
    requires IsSerial(s) && IsOpen(s, i) && IsOpen(Apply(s, e), i)
    ensures Apply(s, e).station == Pushed(s.station, [e])
  {
    assert Pushed(s.station, [e][..0]) == s.station;
    hide IsSerial, Apply, Pushed, InSession;
    if Subject(e) == Some(i) {
      SessionEventsOnStation(s, e, i);
      SubjectIsNoPush(s.station, e);
    } else {
      if Subject(e).Some? && IsOpen(s, Subject(e).value) {
        OnlyOneIsOpen(s, i, Subject(e).value);
      }
      OtherEventsOnStation(s, e);
      PushedOnce(s.station, e);
    }
  }

  lemma SubjectIsNoPush(station: Station, e: Event)
    requires Subject(e).Some?
    ensures Pushed(station, [e]) == station
  {
    assert [e][..0] == [];
  }

  lemma PushedOnce(station: Station, e: Event)
    ensures Pushed(station, [e]) ==
            if e.GuardPush? then
              station.(guardMode := GuardOr(e.guardMode, station.guardMode),
                       effectiveMode := GuardOr(e.effectiveMode, station.effectiveMode))
            else if e.SirenPush? then station.(alarmActive := Some(e.alarmType !in SILENT_ALARMS))
            else station
  {
    assert [e][..0] == [];
  }

  lemma OnlyOneIsOpen(s: State, i: nat, j: nat)
    requires IsSerial(s) && IsOpen(s, i) && IsOpen(s, j)
    ensures i == j
  {
    assert SettledBefore(s, i) && SettledBefore(s, j);
  }

  /** The session of operation `i` is open from the end of `before` to the end of `during`. */
  predicate StaysOpen(firmware: Option<string>, before: seq<Event>, during: seq<Event>, i: nat) {
    forall n :: 0 <= n <= |during| ==> IsOpen(Run(firmware, before + during[..n]), i)
  }

  lemma OpenOneLess(firmware: Option<string>, before: seq<Event>, during: seq<Event>, i: nat)
    requires during != [] && StaysOpen(firmware, before, during, i)
    ensures StaysOpen(firmware, before, during[..|during| - 1], i)
    ensures IsOpen(Run(firmware, before + during[..|during| - 1]), i)
    ensures IsOpen(Run(firmware, before + during), i)
  {
    hide Run, IsOpen;
    var less := during[..|during| - 1];
    assert forall n :: 0 <= n <= |less| ==> less[..n] == during[..n];
    assert during[..|during|] == during;
  }

  /** However events interleave while a session is open, only pushes change the station. */
  lemma {:induction false} OnlyPushesWhileOpen(firmware: Option<string>, before: seq<Event>, during: seq<Event>, i: nat)
    requires StaysOpen(firmware, before, during, i)
    ensures Run(firmware, before + during).station == Pushed(Run(firmware, before).station, during)
  {
    hide Run, Apply, IsOpen, IsSerial, StaysOpen;
    if during == [] {
      assert before + during == before;
    } else {
      var less, e := during[..|during| - 1], during[|during| - 1];
      OpenOneLess(firmware, before, during, i);
      OnlyPushesWhileOpen(firmware, before, less, i);
      assert before + during == (before + less) + [e];
      Extends(firmware, before + less, e);
      RunIsSerial(firmware, before + less);
      var s := Run(firmware, before + less);
      ClockAside(s, e, i);
      OpenStepOnStation(s, e, i);
      PushedOnce(s.station, e);
    }
  }

  lemma ClockAside(s: State, e: Event, i: nat)
    ensures IsOpen(Step(s, e), i) <==> IsOpen(Apply(s, e), i)
    ensures Step(s, e).station == Apply(s, e).station && Step(s, e).operations == Apply(s, e).operations
  {
    hide Apply;
  }

  /**
   * No lost updates: from the moment a session is open to the moment it
   * settles, under every interleaving, the station changes only by the pushes
   * in between and then by the settling, which clears `connected` and nothing
   * else if it fails, and otherwise merges one observation into the station
   * those pushes left and returns the result.
   */
  lemma {:induction false} SettlingAfterPushes(
    firmware: Option<string>, before: seq<Event>, during: seq<Event>, e: Event, i: nat)
    requires StaysOpen(firmware, before, during, i)
    requires Subject(e) == Some(i) && !IsOpen(Step(Run(firmware, before + during), e), i)
    ensures var pushed := Pushed(Run(firmware, before).station, during);
            var t := Run(firmware, before + during + [e]);
            && i < |t.operations| && t.operations[i].status.Done?
            && (match t.operations[i].status.result
                case None => t.station == pushed.(connected := false)
                case Some(returned) =>
                  && t.station == returned
                  && exists observed :: returned == Merge(pushed, observed))
  {
    hide Run, Apply, IsSerial, Pushed, Merge, StaysOpen;
    var s := Run(firmware, before + during);
    OnlyPushesWhileOpen(firmware, before, during, i);
    Extends(firmware, before + during, e);
    assert IsOpen(s, i) by {
      StillOpen(firmware, before, during, i);
    }
    ClockAside(s, e, i);
    ClosingSettles(s, e, i);
  }

  lemma StillOpen(firmware: Option<string>, before: seq<Event>, during: seq<Event>, i: nat)
    requires StaysOpen(firmware, before, during, i)
    ensures IsOpen(Run(firmware, before + during), i)
  {
    hide Run, IsOpen;
    assert during[..|during|] == during;
  }

  /** One event that ends an open session settles its operation. */
  lemma ClosingSettles(s: State, e: Event, i: nat)
    requires Subject(e) == Some(i) && IsOpen(s, i) && !IsOpen(Apply(s, e), i)
    ensures var t := Apply(s, e);
            && i < |t.operations| && t.operations[i].status.Done?
            && (match t.operations[i].status.result
                case None => t.station == s.station.(connected := false)
                case Some(returned) =>
                  && t.station == returned
                  && exists observed :: returned == Merge(s.station, observed))
  {
    hide Merge;
    var t := Apply(s, e);
    if e.CameraInfo? && t.operations[i].status.result.Some? {
      assert t.station == Merge(s.station, e.frame.value);
    } else if e.StorageInfo? {
      assert t.station == Merge(s.station, s.operations[i].status.info.(storage := e.storage));
    }
  }

  /** When the newest operation that began is known, no other session can be open. */
  lemma OnlyNewestIsOpen(s: State, i: nat)
    requires IsSerial(s) && i + 1 == |s.started|
    ensures s.open <= {i}
    ensures forall j :: 0 <= j < i ==> s.operations[j].status.Done?
  {
    assert SettledBefore(s, i);
  }

  /** What every run keeps. */
  ghost predicate RunKeeps(s: State) {
    && IsSerial(s)
    && (forall i, j :: i in s.open && j in s.open ==> i == j)
    && s.station.alarmActive == s.siren
    && WritesConfirmed(s)
  }

  lemma {:induction false} RunsKeep(firmware: Option<string>, events: seq<Event>)
    ensures RunKeeps(Run(firmware, events))
  {
    hide Run, IsSerial, WritesConfirmed;
    RunIsSerial(firmware, events);
    AlarmFollowsPushes(firmware, events);
    RunConfirmsWrites(firmware, events);
    forall i, j | i in Run(firmware, events).open && j in Run(firmware, events).open ensures i == j {
      SessionsDoNotOverlap(firmware, events, i, j);
    }
  }

  /** The provider's fields for one station. */
  class StationProvider {
    var station: Station
    /** The station's promise chain; `entry` is its newest element's place in the operation map. */
    var operations: seq<Operation>
    var entry: Option<nat>
    var open: set<nat>
    var started: seq<nat>
    var siren: Option<bool>
    var clock: nat
    /** History: every step taken. */
    ghost const firmware: Option<string>
    ghost var log: seq<Event>

    function View(): State
      reads this
    {
      State(station, operations, entry, open, started, siren, clock)
    }

    /** The station is where the run of these steps ends. */
    ghost predicate Valid()
      reads this
    {
      View() == Run(firmware, log)
    }

    /** One session at a time, the alarm of the latest siren push, every resolved write confirmed. */
    ghost predicate Kept()
      reads this
    {
      RunKeeps(View())
    }

    predicate AllSettled()
      reads this
    {
      forall i :: 0 <= i < |operations| ==> operations[i].status.Done?
    }

    constructor (firmware: Option<string>)
      ensures Valid() && Kept() && log == [] && this.firmware == firmware
      ensures station == Station(firmware, false, None, None, None, None, None, None, Storage(None, None))
      ensures operations == [] && entry == None && open == {}
    {
      this.firmware, log := firmware, [];
      station := Station(firmware, false, None, None, None, None, None, None, Storage(None, None));
      operations, entry, open, started, siren, clock := [], None, {}, [], None, 0;
      new;
      RunsKeep(firmware, []);
    }

    /** Note a step that was taken. */
    ghost method Took(e: Event)
      requires View() == Step(Run(firmware, log), e)
      modifies this`log
      ensures Valid() && Kept() && log == old(log) + [e]
    {
      hide Run, Step, RunKeeps;
      Extends(firmware, log, e);
      RunsKeep(firmware, log + [e]);
      log := log + [e];
    }

    /** `#queueStationOperation` up to its return: chain, then become the entry. */
    method QueueOperation(kind: Kind)
      requires Valid()
      modifies this
      ensures Valid() && Kept() && log == old(log) + [Call(kind)]
      ensures View() == old(View()).(
                operations := old(operations) + [Operation(kind, Waiting(old(entry)), None, None)],
                entry := Some(|old(operations)|), clock := old(clock) + 1)
      ensures entry == Some(|old(operations)|) && CanStart(View(), |old(operations)|) == old(AllSettled())
    {
      RunsKeep(firmware, log);
      hide Run, Kept;
      var previous := entry;
      operations := operations + [Operation(kind, Waiting(previous), None, None)];
      entry := Some(|operations| - 1);
      clock := clock + 1;
      Took(Call(kind));
    }

    method SetStatus(i: nat, status: Status)
      requires i < |operations|
      modifies this`operations
      ensures View() == Set(old(View()), i, status)
    {
      operations := operations[i := operations[i].(status := status)];
    }

    /** The `catch` and `finally` around a session. */
    method FailSession(i: nat)
      requires i < |operations|
      modifies this`station, this`operations, this`open
      ensures View() == Fail(old(View()), i)
    {
      station := station.(connected := false);
      open := open - {i};
      SetStatus(i, Done(None));
    }

    method FinishSession(i: nat, observed: Observed)
      requires i < |operations|
      modifies this`station, this`operations, this`open
      ensures View() == Succeed(old(View()), i, observed)
    {
      station := Merge(station, observed);
      open := open - {i};
      SetStatus(i, Done(Some(station)));
    }

    /** The chained body up to its first await. */
    method StartOperation(i: nat, known: bool, mediaActive: bool)
      requires Valid() && CanStart(View(), i)
      modifies this
      ensures Valid() && Kept() && log == old(log) + [Start(i, known, mediaActive)]
      ensures var begun := old(View()).(started := old(started) + [i], clock := old(clock) + 1);
              View() ==
              if !known then Set(begun, i, Done(None))
              else if old(operations)[i].kind.Write? then Set(begun, i, StoppingMedia)
              else if mediaActive then Set(begun, i, Done(Some(old(station))))
              else Set(begun, i, Connecting).(open := {i})
      ensures !known ==> operations[i].status == Done(None) && open == {}
      ensures known && operations[i].kind.Write? ==> operations[i].status == StoppingMedia && open == {}
      ensures known && operations[i].kind.Refresh? && mediaActive ==>
                operations[i].status == Done(Some(station)) && station == old(station) && open == {}
      ensures known && operations[i].kind.Refresh? && !mediaActive ==>
                operations[i].status == Connecting && station == old(station) && open == {i}
      ensures i == |old(started)| && open <= {i} && forall j :: 0 <= j < i ==> operations[j].status.Done?
    {
      RunsKeep(firmware, log);
      StartsNext(View(), i);
      hide Run;
      RunBody(i, known, mediaActive);
      Took(Start(i, known, mediaActive));
      OnlyNewestIsOpen(View(), i);
    }

    method RunBody(i: nat, known: bool, mediaActive: bool)
      requires CanStart(View(), i)
      modifies this`clock, this`started, this`operations, this`open
      ensures View() == Step(old(View()), Start(i, known, mediaActive))
    {
      clock := clock + 1;
      started := started + [i];
      if !known {
        SetStatus(i, Done(None));
      } else if operations[i].kind.Write? {
        SetStatus(i, StoppingMedia);
      } else if mediaActive {
        SetStatus(i, Done(Some(station)));
      } else {
        open := open + {i};
        SetStatus(i, Connecting);
      }
    }

    method OnMediaStopped(i: nat, ok: bool)
      requires Valid() && i < |operations| && operations[i].status.StoppingMedia?
      modifies this
      ensures Valid() && Kept() && log == old(log) + [MediaStopped(i, ok)]
      ensures i < |operations|
      ensures operations[i].status == if ok then Connecting else Done(None)
      ensures View() == old(View()).(
                operations := old(operations)[i := old(operations)[i].(status := operations[i].status)],
                open := if ok then old(open) + {i} else old(open), clock := old(clock) + 1)
    {
      hide Run, Kept;
      clock := clock + 1;
      if !ok {
        SetStatus(i, Done(None));
      } else {
        open := open + {i};
        SetStatus(i, Connecting);
      }
      Took(MediaStopped(i, ok));
    }

    method OnConnected(i: nat, ok: bool)
      requires Valid() && i < |operations| && operations[i].status.Connecting?
      modifies this
      ensures Valid() && Kept() && log == old(log) + [Connected(i, ok)]
      ensures i < |operations|
      ensures operations[i].status == if !ok then Done(None) else if operations[i].kind.Write? then Acking else Reading
      ensures View() == old(View()).(
                operations := old(operations)[i := old(operations)[i].(status := operations[i].status)],
                station := station, open := if ok then old(open) else old(open) - {i}, clock := old(clock) + 1)
      ensures station == if ok then old(station) else old(station).(connected := false)
    {
      hide Run, Kept;
      clock := clock + 1;
      if !ok {
        FailSession(i);
      } else {
        SetStatus(i, if operations[i].kind.Write? then Acking else Reading);
      }
      Took(Connected(i, ok));
    }

    method OnAcknowledged(i: nat, ok: bool)
      requires Valid() && i < |operations| && operations[i].status.Acking?
      modifies this
      ensures Valid() && Kept() && log == old(log) + [Acked(i, ok)]
      ensures i < |operations|
      ensures View() == old(View()).(
                operations := old(operations)[i :=
                  if ok then old(operations)[i].(status := Reading, ackedAt := Some(old(clock)))
                  else old(operations)[i].(status := Done(None))],
                station := station, open := if ok then old(open) else old(open) - {i}, clock := old(clock) + 1)
      ensures station == if ok then old(station) else old(station).(connected := false)
    {
      hide Run, Kept;
      if !ok {
        FailSession(i);
      } else {
        operations := operations[i := operations[i].(ackedAt := Some(clock))];
        SetStatus(i, Reading);
      }
      clock := clock + 1;
      Took(Acked(i, ok));
    }

    /** `readState` returns to the operation: `#writeStationValue` compares before it merges. */
    method OnCameraInfo(i: nat, frame: Option<Observed>)
      requires Valid() && i < |operations| && operations[i].status.Reading?
      modifies this
      ensures Valid() && Kept() && log == old(log) + [CameraInfo(i, frame)]
      ensures i < |operations|
      ensures operations[i].status ==
              if frame.None? then Done(None)
              else if operations[i].kind.Refresh? then ReadingStorage(frame.value)
              else if frame.value.Get(operations[i].kind.field) == Some(operations[i].kind.expected)
              then Done(Some(Merge(old(station), frame.value)))
              else Done(None)
      ensures View() == old(View()).(
                operations := old(operations)[i := operations[i]], station := station,
                open := if operations[i].status.Done? then old(open) - {i} else old(open), clock := old(clock) + 1)
      ensures var op := operations[i];
              if !op.status.Done? then station == old(station)
              else match op.status.result
                case None => station == old(station).(connected := false)
                case Some(returned) =>
                  && station == returned
                  && (op.kind.Write? ==>
                        && returned.Get(op.kind.field) == Some(op.kind.expected)
                        && op.ackedAt.Some? && op.infoAt.Some? && op.ackedAt.value < op.infoAt.value)
    {
      hide Run, IsSerial, Merge;
      if frame.None? {
        FailSession(i);
      } else {
        operations := operations[i := operations[i].(infoAt := Some(clock))];
        match operations[i].kind
        case Write(field, expected) =>
          if frame.value.Get(field) != Some(expected) {
            FailSession(i);
          } else {
            FinishSession(i, frame.value);
          }
        case Refresh =>
          SetStatus(i, ReadingStorage(frame.value));
      }
      clock := clock + 1;
      Took(CameraInfo(i, frame));
    }

    method OnStorageInfo(i: nat, storage: Option<Storage>)
      requires Valid() && i < |operations| && operations[i].status.ReadingStorage?
      modifies this
      ensures Valid() && Kept() && log == old(log) + [StorageInfo(i, storage)]
      ensures station == Merge(old(station), old(operations)[i].status.info.(storage := storage))
      ensures View() == old(View()).(
                operations := old(operations)[i := old(operations)[i].(status := Done(Some(station)))],
                station := station, open := old(open) - {i}, clock := old(clock) + 1)
      ensures i < |operations| && operations[i].status == Done(Some(station)) && station.connected
    {
      hide Run, Kept;
      FinishSession(i, operations[i].status.info.(storage := storage));
      clock := clock + 1;
      Took(StorageInfo(i, storage));
    }

    /** The `finally` that forgets the entry, unless a newer operation took its place. */
    method OnSettled(i: nat)
      requires Valid() && i < |operations| && operations[i].status.Done?
      modifies this
      ensures Valid() && Kept() && log == old(log) + [Cleanup(i)]
      ensures View() == old(View()).(
                entry := if old(entry) == Some(i) then None else old(entry), clock := old(clock) + 1)
      ensures entry.None? ==> AllSettled()
    {
      RunsKeep(firmware, log);
      hide Run, Kept;
      if entry == Some(i) {
        entry := None;
      }
      clock := clock + 1;
      Took(Cleanup(i));
    }

    /** The station part of `#handlePush` for event type 9. */
    method OnGuardPush(guardMode: Option<int>, effectiveMode: Option<int>)
      requires Valid()
      modifies this
      ensures Valid() && Kept() && log == old(log) + [GuardPush(guardMode, effectiveMode)]
      ensures station == old(station).(
                guardMode := if guardMode.Some? && guardMode.value in {0, 1, 2, 3, 4, 5, 47, 63} then guardMode
                             else old(station).guardMode,
                effectiveMode := if effectiveMode.Some? && effectiveMode.value in {0, 1, 2, 3, 4, 5, 47, 63}
                                 then effectiveMode else old(station).effectiveMode)
      ensures View() == old(View()).(station := station, clock := old(clock) + 1)
      ensures station.alarmActive == old(station).alarmActive
    {
      hide Run, Kept;
      station := station.(
        guardMode := if guardMode.Some? && guardMode.value in GUARD_MODES then guardMode else station.guardMode,
        effectiveMode := if effectiveMode.Some? && effectiveMode.value in GUARD_MODES then effectiveMode
                         else station.effectiveMode);
      clock := clock + 1;
      Took(GuardPush(guardMode, effectiveMode));
    }

    /** The station part of `#handlePush` for event type 10 with an alarm type. */
    method OnSirenPush(alarmType: int)
      requires Valid()
      modifies this
      ensures Valid() && Kept() && log == old(log) + [SirenPush(alarmType)]
      ensures var active := alarmType != 0 && alarmType != 1 && alarmType != 15 && alarmType != 16 && alarmType != 17;
              View() == old(View()).(
                station := old(station).(alarmActive := Some(active)), siren := Some(active), clock := old(clock) + 1)
    {
      hide Run, Kept;
      siren := Some(alarmType !in SILENT_ALARMS);
      station := station.(alarmActive := siren);
      clock := clock + 1;
      Took(SirenPush(alarmType));
    }
  }
}
