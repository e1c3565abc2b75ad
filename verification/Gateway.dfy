/** The in-memory camera state (`GatewayState`): flags with hold timers, and the events it emits. */
module Gateway {
  import opened Bytes
  import LiveStream
  import Snapshots
  import StationOperations

  datatype Identity = Identity(
    serial: string,
    name: string,
    model: string,
    stationSerial: string,
    streamSupported: bool,
    doorbellSupported: bool)

  datatype Kind = Motion | Person | Doorbell

  datatype Detection = Detection(id: string, kind: Kind, occurredAt: int, personName: Option<string>, recognized: bool)

  datatype Stream = Stream(
    state: LiveStream.StreamState,
    viewers: nat,
    startedAt: Option<int>,
    lastError: Option<string>)

  /** A camera's mutable record, which is also all its public state. */
  datatype Camera = Camera(
    identity: Identity,
    motionDetected: bool,
    personDetected: bool,
    doorbellPressed: bool,
    lastDetection: Option<Detection>,
    snapshot: Option<Snapshots.Info>,
    stream: Stream)
  {
    function Flag(kind: Kind): bool {
      match kind
      case Motion => motionDetected
      case Person => personDetected
      case Doorbell => doorbellPressed
    }

    function WithFlag(kind: Kind, on: bool): (c: Camera)
      ensures forall k :: c.Flag(k) == if k == kind then on else Flag(k)
      ensures c.identity == identity
    {
      match kind
      case Motion => this.(motionDetected := on)
      case Person => this.(personDetected := on)
      case Doorbell => this.(doorbellPressed := on)
    }
  }

  datatype Event =
    | CameraUpdated(camera: Camera)
    | StationUpdated(serial: string, station: StationOperations.Station)
    | Detected(serial: string, detection: Detection)
    | SnapshotUpdated(serial: string, snapshot: Snapshots.Info)
    | ConnectionUpdated(connection: string, detail: Option<string>)

  /** The latest accepted report for a camera and kind, and when it came. */
  datatype Report = Report(detected: bool, at: nat)

  type Key = (Kind, string)

  /** `timers` are the armed clear timers with their due times; `events` all events emitted. */
  datatype State = State(
    cameras: map<string, Camera>,
    timers: map<Key, nat>,
    now: nat,
    events: seq<Event>,
    reports: map<Key, Report>,
    stations: map<string, StationOperations.Station>,
    connection: (string, Option<string>))

  const FRESH := State(map[], map[], 0, [], map[], map[], ("starting", None))

  datatype Step =
    | Register(identity: Identity)
    | Restore(serial: string, snapshot: Snapshots.Info)
    | Record(kind: Kind, serial: string, detected: bool, personName: Option<string>, occurredAt: int, id: string)
    | UpdateSnapshot(serial: string, snapshot: Snapshots.Info)
    | UpdateStream(serial: string, state: LiveStream.StreamState, viewers: nat, error: Option<string>, at: int)
    | UpdateConnection(connection: string, detail: Option<string>)
    | RegisterStation(serial: string, station: StationOperations.Station)
    | Fire(kind: Kind, serial: string)
    | Advance(milliseconds: nat)

  function NewCamera(identity: Identity): Camera {
    Camera(identity, false, false, false, None, None, Stream(LiveStream.Idle, 0, None, None))
  }

  function Emit(s: State, e: Event): State {
    s.(events := s.events + [e])
  }

  /** Store a camera and publish it whole. */
  function PutCamera(s: State, serial: string, camera: Camera): State {
    Emit(s.(cameras := s.cameras[serial := camera]), CameraUpdated(camera))
  }

  /** `isRecentPersonDetection`. */
  predicate IsRecentPerson(last: Option<Detection>, occurredAt: int) {
    last.Some? && last.value.kind == Person && 0 <= occurredAt - last.value.occurredAt <= 10_000
  }

  /** `#scheduleDetectionClear`. */
  function Schedule(timers: map<Key, nat>, key: Key, detected: bool, due: nat): map<Key, nat> {
    if detected then timers[key := due] else timers - {key}
  }

  /** The doorbell ignores cameras that have none. */
  predicate Accepts(camera: Camera, kind: Kind) {
    kind == Doorbell ==> camera.identity.doorbellSupported
  }

  function Detect(camera: Camera, d: Detection): (c: Camera)
    ensures c.identity == camera.identity
  {
    if d.kind == Motion && IsRecentPerson(camera.lastDetection, d.occurredAt) then camera
    else camera.(lastDetection := Some(d))
  }

  /** `recordMotion`, `recordPerson` and `recordDoorbell` of a known camera. */
  function Observe(s: State, hold: nat, serial: string, detected: bool, d: Detection): State
    requires serial in s.cameras
  {
    var camera := s.cameras[serial];
    if !Accepts(camera, d.kind) then s
    else
      var flagged := camera.WithFlag(d.kind, detected);
      var scheduled := s.(timers := Schedule(s.timers, (d.kind, serial), detected, s.now + hold));
      if detected then PutCamera(Emit(scheduled, Detected(serial, d)), serial, Detect(flagged, d))
      else PutCamera(scheduled, serial, flagged)
  }

  /** The detection a report carries; recognition is only a person's. */
  function DetectionOf(kind: Kind, personName: Option<string>, occurredAt: int, id: string): Detection {
    if kind == Person then Detection(id, kind, occurredAt, personName, personName.Some?)
    else Detection(id, kind, occurredAt, None, false)
  }

  function NextStream(
    stream: Stream, state: LiveStream.StreamState, viewers: nat, error: Option<string>, at: int): Stream
  {
    var startedAt :=
      if state == LiveStream.Streaming && stream.startedAt.None? then Some(at)
      else if state == LiveStream.Idle || state == LiveStream.Error then None
      else stream.startedAt;
    Stream(state, viewers, startedAt, error)
  }

  /** One call; calls about unknown cameras throw and change nothing. */
  function Apply(s: State, hold: nat, step: Step): State {
    match step
    case Register(identity) =>
      var camera :=
        if identity.serial in s.cameras then s.cameras[identity.serial].(identity := identity) else NewCamera(identity);
      PutCamera(s, identity.serial, camera)
    case Restore(serial, snapshot) =>
      if serial !in s.cameras then s else PutCamera(s, serial, s.cameras[serial].(snapshot := Some(snapshot)))
    case Record(kind, serial, detected, personName, occurredAt, id) =>
      if serial !in s.cameras || !Accepts(s.cameras[serial], kind) then s
      else
        Observe(s, hold, serial, detected, DetectionOf(kind, personName, occurredAt, id))
          .(reports := s.reports[(kind, serial) := Report(detected, s.now)])
    case UpdateSnapshot(serial, snapshot) =>
      if serial !in s.cameras then s
      else PutCamera(Emit(s, SnapshotUpdated(serial, snapshot)), serial, s.cameras[serial].(snapshot := Some(snapshot)))
    case UpdateStream(serial, state, viewers, error, at) =>
      if serial !in s.cameras then s
      else
        var stream := NextStream(s.cameras[serial].stream, state, viewers, error, at);
        PutCamera(s, serial, s.cameras[serial].(stream := stream))
    case UpdateConnection(connection, detail) =>
      Emit(s.(connection := (connection, detail)), ConnectionUpdated(connection, detail))
    case RegisterStation(serial, station) =>
      Emit(s.(stations := s.stations[serial := station]), StationUpdated(serial, station))
    case Fire(kind, serial) =>
      if !Due(s, kind, serial) then s
      else
        var fired := s.(timers := s.timers - {(kind, serial)});
        if serial !in s.cameras then fired
        else Observe(fired, hold, serial, false, DetectionOf(kind, None, 0, ""))
    case Advance(milliseconds) => s.(now := s.now + milliseconds)
  }

  predicate Due(s: State, kind: Kind, serial: string) {
    (kind, serial) in s.timers && s.timers[(kind, serial)] <= s.now
  }

  function Run(hold: nat, steps: seq<Step>): State {
    if steps == [] then FRESH else Apply(Run(hold, steps[..|steps| - 1]), hold, steps[|steps| - 1])
  }

  // The timestamp rule

  /** A report that is still holding its flag on. */
  predicate Holds(s: State, hold: nat, key: Key) {
    key in s.reports && s.reports[key].detected && s.now < s.reports[key].at + hold
  }

  function IsOn(s: State, key: Key): bool {
    key.1 in s.cameras && s.cameras[key.1].Flag(key.0)
  }

  /**
   * Flags, armed timers and reports of one camera and kind: the flag is on
   * exactly while its timer is armed, the timer is the newest report's, and a
   * report that held its flag is let go only when its time is up.
   */
  ghost predicate KeyFits(s: State, hold: nat, key: Key) {
    && (IsOn(s, key) <==> key in s.timers)
    && (key in s.reports ==> s.reports[key].at <= s.now)
    && (key in s.timers ==> key in s.reports && s.reports[key].detected && s.timers[key] == s.reports[key].at + hold)
    && (key !in s.timers ==> !Holds(s, hold, key))
  }

  /** A clear timer fires on a camera that still takes what it clears. */
  predicate ClearIsEffective(s: State, step: Step) {
    step.Fire? && Due(s, step.kind, step.serial) && step.serial in s.cameras ==>
      Accepts(s.cameras[step.serial], step.kind)
  }

  lemma OtherKeysFit(s: State, hold: nat, step: Step, key: Key)
    requires KeyFits(s, hold, key)
    requires step.Record? || step.Fire? ==> key != (step.kind, step.serial)
    ensures KeyFits(Apply(s, hold, step), hold, key)
  {
    hide Observe, NextStream;
    if step.Record? && step.serial in s.cameras {
      ObserveKeepsOthers(s, hold, step.serial, step.detected,
                         DetectionOf(step.kind, step.personName, step.occurredAt, step.id), key);
    } else if step.Fire? && step.serial in s.cameras {
      ObserveKeepsOthers(s.(timers := s.timers - {(step.kind, step.serial)}), hold, step.serial, false,
                         DetectionOf(step.kind, None, 0, ""), key);
    }
  }

  /** An observation of one camera and kind leaves the flags and timers of the others. */
  lemma ObserveKeepsOthers(s: State, hold: nat, serial: string, detected: bool, d: Detection, key: Key)
    requires serial in s.cameras && key != (d.kind, serial)
    ensures var t := Observe(s, hold, serial, detected, d);
            && (IsOn(t, key) <==> IsOn(s, key))
            && (key in t.timers <==> key in s.timers) && (key in t.timers ==> t.timers[key] == s.timers[key])
            && t.now == s.now && t.reports == s.reports
  {
  }

  lemma OwnKeyFits(s: State, hold: nat, step: Step)
    requires step.Record? || step.Fire?
    requires KeyFits(s, hold, (step.kind, step.serial))
    requires ClearIsEffective(s, step)
    ensures KeyFits(Apply(s, hold, step), hold, (step.kind, step.serial))
  {
  }

  /** Whenever the clear timer of this camera and kind fires in the run, the camera still takes what it clears. */
  ghost predicate ClearsAreEffective(hold: nat, steps: seq<Step>, key: Key) {
    forall n :: 0 <= n < |steps| && steps[n] == Fire(key.0, key.1) ==>
      ClearIsEffective(Run(hold, steps[..n]), steps[n])
  }

  /** Flag, timer and reports of this camera and kind agree after every step of the run. */
  ghost predicate AlwaysFits(hold: nat, steps: seq<Step>, key: Key) {
    forall n :: 0 <= n <= |steps| ==> KeyFits(Run(hold, steps[..n]), hold, key)
  }

  /** Motion and person reports are never refused, so their clears always work. */
  lemma OnlyDoorbellsRefuse(hold: nat, steps: seq<Step>, key: Key)
    requires key.0 != Doorbell
    ensures ClearsAreEffective(hold, steps, key)
  {
    hide Run;
  }

  lemma FreshFits(hold: nat, key: Key)
    ensures KeyFits(FRESH, hold, key)
  {
  }

  /** One step keeps flag, timer and reports of a camera and kind in agreement exactly if it is no refused clear. */
  lemma StepKeepsKeyIff(s: State, hold: nat, step: Step, key: Key)
    requires KeyFits(s, hold, key)
    ensures KeyFits(Apply(s, hold, step), hold, key) <==>
            (step == Fire(key.0, key.1) ==> ClearIsEffective(s, step))
  {
    hide Apply, KeyFits, ClearIsEffective;
    if !((step.Record? || step.Fire?) && key == (step.kind, step.serial)) {
      OtherKeysFit(s, hold, step, key);
    } else if step.Record? {
      OnlyFiresClear(s, step);
      OwnKeyFits(s, hold, step);
    } else if ClearIsEffective(s, step) {
      OwnKeyFits(s, hold, step);
    } else {
      VainClear(s, hold, key);
    }
  }

  lemma OnlyFiresClear(s: State, step: Step)
    requires !step.Fire?
    ensures ClearIsEffective(s, step)
  {
  }

  /** A clear that is refused has forgotten its timer already, and the flag stays on. */
  lemma VainClear(s: State, hold: nat, key: Key)
    requires KeyFits(s, hold, key) && !ClearIsEffective(s, Fire(key.0, key.1))
    ensures !KeyFits(Apply(s, hold, Fire(key.0, key.1)), hold, key)
  {
  }

  /**
   * Flag, timer and reports of a camera and kind agree throughout a run if
   * and only if none of their clears is refused. What happens to other cameras
   * and kinds does not matter.
   */
  lemma {:induction false} AgreesIffClearsWork(hold: nat, steps: seq<Step>, key: Key)
    ensures AlwaysFits(hold, steps, key) <==> ClearsAreEffective(hold, steps, key)
  {
    hide Apply, KeyFits, ClearIsEffective;
    if steps == [] {
      FreshFits(hold, key);
    } else {
      var before, step := steps[..|steps| - 1], steps[|steps| - 1];
      AgreesIffClearsWork(hold, before, key);
      forall n | 0 <= n <= |before| ensures before[..n] == steps[..n] {
      }
      assert before[..|before|] == before && steps[..|steps|] == steps;
      if AlwaysFits(hold, before, key) {
        assert KeyFits(Run(hold, before[..|before|]), hold, key);
        StepKeepsKeyIff(Run(hold, before), hold, step, key);
      } else {
        var n :| 0 <= n <= |before| && !KeyFits(Run(hold, before[..n]), hold, key);
        assert !KeyFits(Run(hold, steps[..n]), hold, key);
      }
      AlwaysFitsOneMore(hold, steps, key);
      EffectiveOneMore(hold, steps, key);
    }
  }

  lemma AlwaysFitsOneMore(hold: nat, steps: seq<Step>, key: Key)
    requires steps != []
    ensures AlwaysFits(hold, steps, key) <==>
            AlwaysFits(hold, steps[..|steps| - 1], key) && KeyFits(Run(hold, steps), hold, key)
  {
    hide Run, KeyFits;
    var before := steps[..|steps| - 1];
    assert steps[..|steps|] == steps;
    if AlwaysFits(hold, steps, key) {
      forall n | 0 <= n <= |before| ensures KeyFits(Run(hold, before[..n]), hold, key) {
        assert before[..n] == steps[..n];
      }
      assert KeyFits(Run(hold, steps[..|steps|]), hold, key);
    }
    if AlwaysFits(hold, before, key) && KeyFits(Run(hold, steps), hold, key) {
      forall n | 0 <= n <= |steps| ensures KeyFits(Run(hold, steps[..n]), hold, key) {
        if n < |steps| {
          assert before[..n] == steps[..n];
        }
      }
    }
  }

  lemma EffectiveOneMore(hold: nat, steps: seq<Step>, key: Key)
    requires steps != []
    ensures var before, step := steps[..|steps| - 1], steps[|steps| - 1];
            ClearsAreEffective(hold, steps, key) <==>
            ClearsAreEffective(hold, before, key)
            && (step == Fire(key.0, key.1) ==> ClearIsEffective(Run(hold, before), step))
  {
    hide Run, ClearIsEffective;
    var before := steps[..|steps| - 1];
    assert forall n :: 0 <= n < |before| ==> before[..n] == steps[..n] && before[n] == steps[n];
  }

  /** The clear timer of this camera and kind is not overdue. */
  predicate Caught(s: State, key: Key) {
    key in s.timers ==> s.now < s.timers[key]
  }

  /** The timestamp rule for one camera and kind. */
  ghost predicate FollowsReports(s: State, hold: nat, key: Key) {
    && (Caught(s, key) ==> (IsOn(s, key) <==> Holds(s, hold, key)))
    && (Holds(s, hold, key) ==> IsOn(s, key))
    && (key in s.timers ==>
          key in s.reports && s.reports[key].detected && s.timers[key] == s.reports[key].at + hold)
  }

  lemma FittingFollows(s: State, hold: nat, key: Key)
    requires KeyFits(s, hold, key)
    ensures FollowsReports(s, hold, key)
  {
  }

  /**
   * The timers refine a timestamp rule. For every run of reports, refreshes,
   * timer firings and clock advances, whenever its clear timer is not overdue,
   * a motion or person flag of a camera is on exactly when the camera's latest
   * such report was true and now is before that report plus the hold. Overdue
   * or not, the armed timer is the newest true report's, and there is at most
   * one. A doorbell's flag does the same as long as none of its own clears is
   * refused.
   */
  lemma {:induction false} FlagsFollowReports(hold: nat, steps: seq<Step>, key: Key)
    requires key.0 == Doorbell ==> ClearsAreEffective(hold, steps, key)
    ensures FollowsReports(Run(hold, steps), hold, key)
  {
    hide KeyFits, Run, FollowsReports, ClearsAreEffective;
    if key.0 != Doorbell {
      OnlyDoorbellsRefuse(hold, steps, key);
    }
    AgreesIffClearsWork(hold, steps, key);
    assert steps[..|steps|] == steps;
    FittingFollows(Run(hold, steps), hold, key);
  }

  /**
   * Exactly the refused clears break the rule: in a run up to one that is
   * refused the flag stays on although nothing holds it and no timer is left.
   */
  lemma {:induction false} RefusedClearSticks(hold: nat, steps: seq<Step>, key: Key)
    requires ClearsAreEffective(hold, steps, key)
    ensures var s := Run(hold, steps + [Fire(key.0, key.1)]);
            !ClearIsEffective(Run(hold, steps), Fire(key.0, key.1)) <==>
              !FollowsReports(s, hold, key)
  {
    hide KeyFits, Run, Apply, FollowsReports, ClearsAreEffective, ClearIsEffective;
    var s, fire := Run(hold, steps), Fire(key.0, key.1);
    AgreesIffClearsWork(hold, steps, key);
    assert steps[..|steps|] == steps;
    Extends(hold, steps, fire);
    if ClearIsEffective(s, fire) {
      StepKeepsKeyIff(s, hold, fire, key);
      FittingFollows(Apply(s, hold, fire), hold, key);
    } else {
      VainClearSticks(s, hold, key);
    }
  }

  lemma VainClearSticks(s: State, hold: nat, key: Key)
    requires KeyFits(s, hold, key) && !ClearIsEffective(s, Fire(key.0, key.1))
    ensures var t := Apply(s, hold, Fire(key.0, key.1));
            && key !in t.timers && IsOn(t, key) && !Holds(t, hold, key)
            && !FollowsReports(t, hold, key)
  {
  }

  lemma Extends(hold: nat, before: seq<Step>, step: Step)
    ensures Run(hold, before + [step]) == Apply(Run(hold, before), hold, step)
  {
    assert (before + [step])[..|before + [step]| - 1] == before;
  }

  /** A doorbell pressed, re-registered without one and then cleared stays pressed with no timer. */
  lemma DoorbellSticks(hold: nat, bell: Identity) returns (steps: seq<Step>)
    requires bell.doorbellSupported
    ensures var s := Run(hold, steps);
            s.timers == map[] && IsOn(s, (Doorbell, bell.serial)) && !Holds(s, hold, (Doorbell, bell.serial))
  {
    hide Run;
    var e0: seq<Step> := [];
    var e1 := e0 + [Register(bell)];
    var e2 := e1 + [Record(Doorbell, bell.serial, true, None, 0, "press")];
    var e3 := e2 + [Register(bell.(doorbellSupported := false))];
    var e4 := e3 + [Advance(hold)];
    steps := e4 + [Fire(Doorbell, bell.serial)];
    NothingRun(hold);
    Extends(hold, e0, Register(bell));
    Extends(hold, e1, Record(Doorbell, bell.serial, true, None, 0, "press"));
    Extends(hold, e2, Register(bell.(doorbellSupported := false)));
    Extends(hold, e3, Advance(hold));
    Extends(hold, e4, Fire(Doorbell, bell.serial));
    var key := (Doorbell, bell.serial);
    assert Run(hold, e2).timers == map[key := hold] && Run(hold, e2).reports == map[key := Report(true, 0)];
    assert Run(hold, e4).timers == map[key := hold] && Run(hold, e4).now == hold;
  }

  lemma NothingRun(hold: nat)
    ensures Run(hold, []) == FRESH
  {
  }

  // Publication

  /** Cameras are stored under their own serials. */
  ghost predicate KeyedBySerial(cameras: map<string, Camera>) {
    forall serial :: serial in cameras ==> cameras[serial].identity.serial == serial
  }

  lemma ApplyKeepsKeys(s: State, hold: nat, step: Step)
    requires KeyedBySerial(s.cameras)
    ensures KeyedBySerial(Apply(s, hold, step).cameras)
  {
  }

  /** Cameras as the `camera-updated` events alone rebuild them. */
  function Replay(cameras: map<string, Camera>, events: seq<Event>): map<string, Camera> {
    if events == [] then cameras
    else
      var before, last := Replay(cameras, events[..|events| - 1]), events[|events| - 1];
      if last.CameraUpdated? then before[last.camera.identity.serial := last.camera] else before
  }

  lemma {:induction false} ReplayConcat(cameras: map<string, Camera>, a: seq<Event>, b: seq<Event>)
    ensures Replay(cameras, a + b) == Replay(Replay(cameras, a), b)
  {
    if b == [] {
      assert a + b == a;
    } else {
      assert (a + b)[..|a + b| - 1] == a + b[..|b| - 1];
      ReplayConcat(cameras, a, b[..|b| - 1]);
    }
  }

  /** What was emitted between two states carries the cameras of one to the other. */
  ghost predicate Publishes(s: State, t: State) {
    && s.events <= t.events
    && Replay(s.cameras, t.events[|s.events|..]) == t.cameras
  }

  lemma NothingPublished(s: State, t: State)
    requires t.cameras == s.cameras && t.events == s.events
    ensures Publishes(s, t)
  {
    assert t.events[|s.events|..] == [];
  }

  lemma NoticePublished(s: State, t: State, e: Event)
    requires t.cameras == s.cameras && t.events == s.events + [e] && !e.CameraUpdated?
    ensures Publishes(s, t)
  {
    assert t.events[|s.events|..] == [e];
    assert [e][..0] == [];
  }

  lemma PutPublishes(s: State, before: State, t: State, serial: string, camera: Camera)
    requires Publishes(s, before) && camera.identity.serial == serial
    requires t.cameras == before.cameras[serial := camera] && t.events == before.events + [CameraUpdated(camera)]
    ensures Publishes(s, t)
  {
    var e := CameraUpdated(camera);
    var emitted := before.events[|s.events|..];
    assert t.events[|s.events|..] == emitted + [e];
    assert (emitted + [e])[..|emitted|] == emitted;
  }

  lemma ObservePublishes(s: State, hold: nat, serial: string, detected: bool, d: Detection)
    requires KeyedBySerial(s.cameras) && serial in s.cameras
    ensures Publishes(s, Observe(s, hold, serial, detected, d))
  {
    hide Publishes, Detect, Schedule, Camera.WithFlag;
    var t := Observe(s, hold, serial, detected, d);
    if !Accepts(s.cameras[serial], d.kind) {
      NothingPublished(s, t);
    } else {
      var flagged := s.cameras[serial].WithFlag(d.kind, detected);
      if detected {
        NoticePublished(s, Emit(s, Detected(serial, d)), Detected(serial, d));
        PutPublishes(s, Emit(s, Detected(serial, d)), t, serial, Detect(flagged, d));
      } else {
        NothingPublished(s, s);
        PutPublishes(s, s, t, serial, flagged);
      }
    }
  }

  lemma SameEvents(s: State, t: State, u: State)
    requires Publishes(s, t) && u.cameras == t.cameras && u.events == t.events
    ensures Publishes(s, u)
  {
  }

  /** Every call that changes a camera publishes it whole, after the change. */
  lemma ApplyPublishes(s: State, hold: nat, step: Step)
    requires KeyedBySerial(s.cameras)
    ensures Publishes(s, Apply(s, hold, step))
  {
    hide Publishes, Observe, DetectionOf, NextStream, Accepts;
    var t := Apply(s, hold, step);
    NothingPublished(s, s);
    match step
    case Register(identity) => PutPublishes(s, s, t, identity.serial, t.cameras[identity.serial]);
    case Restore(serial, _) =>
      if serial in s.cameras {
        PutPublishes(s, s, t, serial, t.cameras[serial]);
      }
    case Record(kind, serial, detected, personName, occurredAt, id) =>
      if serial in s.cameras && Accepts(s.cameras[serial], kind) {
        var d := DetectionOf(kind, personName, occurredAt, id);
        ObservePublishes(s, hold, serial, detected, d);
        SameEvents(s, Observe(s, hold, serial, detected, d), t);
      }
    case UpdateSnapshot(serial, snapshot) =>
      if serial in s.cameras {
        NoticePublished(s, Emit(s, SnapshotUpdated(serial, snapshot)), SnapshotUpdated(serial, snapshot));
        PutPublishes(s, Emit(s, SnapshotUpdated(serial, snapshot)), t, serial, t.cameras[serial]);
      }
    case UpdateStream(serial, _, _, _, _) =>
      if serial in s.cameras {
        PutPublishes(s, s, t, serial, t.cameras[serial]);
      }
    case UpdateConnection(connection, detail) => NoticePublished(s, t, ConnectionUpdated(connection, detail));
    case RegisterStation(serial, station) => NoticePublished(s, t, StationUpdated(serial, station));
    case Fire(kind, serial) => FirePublishes(s, hold, kind, serial);
    case Advance(_) => SameEvents(s, s, t);
  }

  lemma FirePublishes(s: State, hold: nat, kind: Kind, serial: string)
    requires KeyedBySerial(s.cameras)
    ensures Publishes(s, Apply(s, hold, Fire(kind, serial)))
  {
    hide Observe, DetectionOf;
    NothingPublished(s, s);
    if Due(s, kind, serial) && serial in s.cameras {
      ObservePublishes(s.(timers := s.timers - {(kind, serial)}), hold, serial, false, DetectionOf(kind, None, 0, ""));
    }
  }

  /**
   * However the calls follow each other, replaying the events emitted since
   * some moment onto the cameras of that moment gives the cameras of now.
   */
  lemma {:induction false} EventsCarryTheState(hold: nat, steps: seq<Step>, more: seq<Step>)
    ensures var s, t := Run(hold, steps), Run(hold, steps + more);
            && KeyedBySerial(t.cameras)
            && s.events <= t.events
            && Replay(s.cameras, t.events[|s.events|..]) == t.cameras
  {
    hide Apply, Run;
    if more == [] {
      assert steps + more == steps;
      RunIsKeyed(hold, steps);
      NothingPublished(Run(hold, steps), Run(hold, steps));
    } else {
      var before, step := more[..|more| - 1], more[|more| - 1];
      assert steps + more == (steps + before) + [step];
      EventsCarryTheState(hold, steps, before);
      Extends(hold, steps + before, step);
      var s, m, t := Run(hold, steps), Run(hold, steps + before), Run(hold, steps + more);
      ApplyKeepsKeys(m, hold, step);
      ApplyPublishes(m, hold, step);
      assert t.events[|s.events|..] == m.events[|s.events|..] + t.events[|m.events|..];
      ReplayConcat(s.cameras, m.events[|s.events|..], t.events[|m.events|..]);
    }
  }

  lemma {:induction false} RunIsKeyed(hold: nat, steps: seq<Step>)
    ensures KeyedBySerial(Run(hold, steps).cameras)
  {
    hide Apply;
    if steps == [] {
    } else {
      RunIsKeyed(hold, steps[..|steps| - 1]);
      ApplyKeepsKeys(Run(hold, steps[..|steps| - 1]), hold, steps[|steps| - 1]);
    }
  }

  // Stream times

  /** A streaming camera has a start time, an idle or failed one has none. */
  predicate StreamFits(stream: Stream) {
    && (stream.state == LiveStream.Streaming ==> stream.startedAt.Some?)
    && (stream.state == LiveStream.Idle || stream.state == LiveStream.Error ==> stream.startedAt.None?)
  }

  /** One call moves a camera's stream by `updateStream` alone. */
  lemma ApplyOnStreams(s: State, hold: nat, step: Step, serial: string)
    requires serial in Apply(s, hold, step).cameras
    ensures var stream := Apply(s, hold, step).cameras[serial].stream;
            stream == if serial !in s.cameras then NewCamera(Apply(s, hold, step).cameras[serial].identity).stream
                      else if step.UpdateStream? && step.serial == serial
                      then NextStream(s.cameras[serial].stream, step.state, step.viewers, step.error, step.at)
                      else s.cameras[serial].stream
  {
    hide Observe, DetectionOf, NextStream, Accepts;
    if step.Record? && step.serial in s.cameras {
      ObserveKeepsStreams(s, hold, step.serial, step.detected,
                          DetectionOf(step.kind, step.personName, step.occurredAt, step.id), serial);
    } else if step.Fire? && step.serial in s.cameras {
      ObserveKeepsStreams(s.(timers := s.timers - {(step.kind, step.serial)}), hold, step.serial, false,
                          DetectionOf(step.kind, None, 0, ""), serial);
    }
  }

  lemma ObserveKeepsStreams(s: State, hold: nat, at: string, detected: bool, d: Detection, serial: string)
    requires at in s.cameras
    ensures Observe(s, hold, at, detected, d).cameras.Keys == s.cameras.Keys
    ensures serial in s.cameras ==> Observe(s, hold, at, detected, d).cameras[serial].stream == s.cameras[serial].stream
  {
  }

  /**
   * In every run a streaming camera has a start time and an idle or failed
   * one has none, and while a camera streams its start time stays.
   */
  lemma {:induction false} StartTimesFollowStreams(hold: nat, steps: seq<Step>, step: Step, serial: string)
    requires serial in Run(hold, steps).cameras
    ensures var before := Run(hold, steps).cameras[serial].stream;
            && serial in Run(hold, steps + [step]).cameras
            && var after := Run(hold, steps + [step]).cameras[serial].stream;
            && StreamFits(before)
            && StreamFits(after)
            && (before.state == after.state == LiveStream.Streaming ==> after.startedAt == before.startedAt)
  {
    hide Apply;
    StreamsFit(hold, steps, serial);
    Extends(hold, steps, step);
    CamerasStay(Run(hold, steps), hold, step, serial);
    ApplyOnStreams(Run(hold, steps), hold, step, serial);
  }

  lemma CamerasStay(s: State, hold: nat, step: Step, serial: string)
    requires serial in s.cameras
    ensures serial in Apply(s, hold, step).cameras
  {
  }

  lemma {:induction false} StreamsFit(hold: nat, steps: seq<Step>, serial: string)
    requires serial in Run(hold, steps).cameras
    ensures StreamFits(Run(hold, steps).cameras[serial].stream)
  {
    hide Apply;
    var before := steps[..|steps| - 1];
    if serial in Run(hold, before).cameras {
      StreamsFit(hold, before, serial);
    }
    ApplyOnStreams(Run(hold, before), hold, steps[|steps| - 1], serial);
  }

  // The class

  /** The three timer maps as one. */
  ghost function Merged(motion: map<string, nat>, person: map<string, nat>, doorbell: map<string, nat>): map<Key, nat> {
    var keys: set<Key> := (set serial | serial in motion :: (Motion, serial)) +
                          (set serial | serial in person :: (Person, serial)) +
                          (set serial | serial in doorbell :: (Doorbell, serial));
    map key: Key | key in keys ::
      match key.0 case Motion => motion[key.1] case Person => person[key.1] case Doorbell => doorbell[key.1]
  }

  lemma MergedHas(motion: map<string, nat>, person: map<string, nat>, doorbell: map<string, nat>, key: Key)
    ensures var own := match key.0 case Motion => motion case Person => person case Doorbell => doorbell;
            var all := Merged(motion, person, doorbell);
            (key in all <==> key.1 in own) && (key in all ==> all[key] == own[key.1])
  {
  }

  /** Clearing and arming in one of the maps is doing so in all of them together. */
  lemma {:induction false} MergedSchedules(
    motion: map<string, nat>, person: map<string, nat>, doorbell: map<string, nat>,
    kind: Kind, serial: string, detected: bool, due: nat)
    ensures Schedule(Merged(motion, person, doorbell), (kind, serial), detected, due) ==
            match kind
            case Motion => Merged(ScheduleOne(motion, serial, detected, due), person, doorbell)
            case Person => Merged(motion, ScheduleOne(person, serial, detected, due), doorbell)
            case Doorbell => Merged(motion, person, ScheduleOne(doorbell, serial, detected, due))
  {
    var m2 := if kind == Motion then ScheduleOne(motion, serial, detected, due) else motion;
    var p2 := if kind == Person then ScheduleOne(person, serial, detected, due) else person;
    var d2 := if kind == Doorbell then ScheduleOne(doorbell, serial, detected, due) else doorbell;
    var a := Schedule(Merged(motion, person, doorbell), (kind, serial), detected, due);
    var b := Merged(m2, p2, d2);
    hide Merged;
    forall key: Key ensures (key in a <==> key in b) && (key in a ==> a[key] == b[key]) {
      MergedHas(motion, person, doorbell, key);
      MergedHas(m2, p2, d2, key);
    }
    assert a == b;
  }

  function ScheduleOne(timers: map<string, nat>, serial: string, detected: bool, due: nat): map<string, nat> {
    if detected then timers[serial := due] else timers - {serial}
  }

  // What a camera shows, from the steps alone

  /** The identity a serial was registered with last. */
  function LatestIdentity(steps: seq<Step>, serial: string): Option<Identity> {
    if steps == [] then None
    else
      var before, step := steps[..|steps| - 1], steps[|steps| - 1];
      if step.Register? && step.identity.serial == serial then Some(step.identity) else LatestIdentity(before, serial)
  }

  /** The image info a known camera was given last, by a restore or an update. */
  function LatestSnapshot(steps: seq<Step>, serial: string): Option<Snapshots.Info> {
    if steps == [] then None
    else
      var before, step := steps[..|steps| - 1], steps[|steps| - 1];
      if (step.Restore? || step.UpdateSnapshot?) && step.serial == serial && LatestIdentity(before, serial).Some?
      then Some(step.snapshot) else LatestSnapshot(before, serial)
  }

  /** The stream report a known camera got last: state, viewers and error. */
  function LatestStream(steps: seq<Step>, serial: string): (LiveStream.StreamState, nat, Option<string>) {
    if steps == [] then (LiveStream.Idle, 0, None)
    else
      var before, step := steps[..|steps| - 1], steps[|steps| - 1];
      if step.UpdateStream? && step.serial == serial && LatestIdentity(before, serial).Some?
      then (step.state, step.viewers, step.error) else LatestStream(before, serial)
  }

  /**
   * The detection a known camera shows: the newest true report, except that
   * motion does not replace a person seen up to ten seconds before it, and a
   * doorbell is heard only by a camera that has one.
   */
  function LatestDetection(steps: seq<Step>, serial: string): Option<Detection> {
    if steps == [] then None
    else
      var before, step := steps[..|steps| - 1], steps[|steps| - 1];
      var shown, identity := LatestDetection(before, serial), LatestIdentity(before, serial);
      if !(step.Record? && step.serial == serial && step.detected && identity.Some?) then shown
      else if step.kind == Doorbell && !identity.value.doorbellSupported then shown
      else if step.kind == Motion && shown.Some? && shown.value.kind == Person
              && 0 <= step.occurredAt - shown.value.occurredAt <= 10_000 then shown
      else
        Some(Detection(step.id, step.kind, step.occurredAt,
                       if step.kind == Person then step.personName else None,
                       step.kind == Person && step.personName.Some?))
  }

  lemma ObserveOnCamera(s: State, hold: nat, at: string, detected: bool, d: Detection, serial: string)
    requires at in s.cameras && serial in s.cameras
    ensures serial in Observe(s, hold, at, detected, d).cameras
    ensures var c, t := s.cameras[serial], Observe(s, hold, at, detected, d).cameras[serial];
            && t.identity == c.identity && t.snapshot == c.snapshot && t.stream == c.stream
            && t.lastDetection ==
               if !detected || at != serial || (d.kind == Doorbell && !c.identity.doorbellSupported)
               then c.lastDetection
               else if d.kind == Motion && c.lastDetection.Some? && c.lastDetection.value.kind == Person
                       && 0 <= d.occurredAt - c.lastDetection.value.occurredAt <= 10_000 then c.lastDetection
               else Some(d)
  {
  }

  /** What one step does to what a known camera shows. */
  lemma StepOnCamera(s: State, hold: nat, step: Step, serial: string)
    requires serial in s.cameras
    ensures serial in Apply(s, hold, step).cameras
    ensures var c, t := s.cameras[serial], Apply(s, hold, step).cameras[serial];
            && t.identity == (if step.Register? && step.identity.serial == serial then step.identity else c.identity)
            && t.snapshot == (if (step.Restore? || step.UpdateSnapshot?) && step.serial == serial
                              then Some(step.snapshot) else c.snapshot)
            && (t.stream.state, t.stream.viewers, t.stream.lastError) ==
               (if step.UpdateStream? && step.serial == serial then (step.state, step.viewers, step.error)
                else (c.stream.state, c.stream.viewers, c.stream.lastError))
            && t.lastDetection ==
               if !(step.Record? && step.serial == serial && step.detected) then c.lastDetection
               else if step.kind == Doorbell && !c.identity.doorbellSupported then c.lastDetection
               else if step.kind == Motion && c.lastDetection.Some? && c.lastDetection.value.kind == Person
                       && 0 <= step.occurredAt - c.lastDetection.value.occurredAt <= 10_000 then c.lastDetection
               else
                 Some(Detection(step.id, step.kind, step.occurredAt,
                                if step.kind == Person then step.personName else None,
                                step.kind == Person && step.personName.Some?))
  {
    hide Observe;
    if step.Record? && step.serial in s.cameras {
      ObserveOnCamera(s, hold, step.serial, step.detected,
                      DetectionOf(step.kind, step.personName, step.occurredAt, step.id), serial);
    } else if step.Fire? && step.serial in s.cameras {
      ObserveOnCamera(s.(timers := s.timers - {(step.kind, step.serial)}), hold, step.serial, false,
                      DetectionOf(step.kind, None, 0, ""), serial);
    }
  }

  /** Only a registration adds a camera, which starts clean. */
  lemma StepAddsCamera(s: State, hold: nat, step: Step, serial: string)
    requires serial !in s.cameras
    ensures serial in Apply(s, hold, step).cameras <==> step.Register? && step.identity.serial == serial
    ensures step.Register? && step.identity.serial == serial ==>
              Apply(s, hold, step).cameras[serial] ==
              Camera(step.identity, false, false, false, None, None, Stream(LiveStream.Idle, 0, None, None))
  {
    hide NextStream, DetectionOf;
  }

  /** What a camera shows is what it was told last. */
  ghost predicate Shows(camera: Camera, steps: seq<Step>, serial: string) {
    && Some(camera.identity) == LatestIdentity(steps, serial)
    && camera.snapshot == LatestSnapshot(steps, serial)
    && (camera.stream.state, camera.stream.viewers, camera.stream.lastError) == LatestStream(steps, serial)
    && camera.lastDetection == LatestDetection(steps, serial)
  }

  lemma {:induction false} NothingShown(steps: seq<Step>, serial: string)
    requires LatestIdentity(steps, serial).None?
    ensures LatestSnapshot(steps, serial).None? && LatestDetection(steps, serial).None?
    ensures LatestStream(steps, serial) == (LiveStream.Idle, 0, None)
  {
    if steps == [] {
    } else {
      NothingShown(steps[..|steps| - 1], serial);
    }
  }

  /**
   * In every run the cameras are those that were registered, and each shows
   * its latest identity, its latest image info, its latest stream report and
   * its newest detection.
   */
  lemma {:induction false} CamerasShowTheLatest(hold: nat, steps: seq<Step>, serial: string)
    ensures serial in Run(hold, steps).cameras <==> LatestIdentity(steps, serial).Some?
    ensures serial in Run(hold, steps).cameras ==> Shows(Run(hold, steps).cameras[serial], steps, serial)
  {
    hide Apply;
    if steps == [] {
      NothingRun(hold);
    } else {
      var before, step := steps[..|steps| - 1], steps[|steps| - 1];
      var s := Run(hold, before);
      CamerasShowTheLatest(hold, before, serial);
      if serial in s.cameras {
        StepOnCamera(s, hold, step, serial);
      } else {
        StepAddsCamera(s, hold, step, serial);
        NothingShown(before, serial);
      }
    }
  }

  /** The time that passed in a run. */
  function Elapsed(steps: seq<Step>): nat {
    if steps == [] then 0
    else Elapsed(steps[..|steps| - 1]) + if steps[|steps| - 1].Advance? then steps[|steps| - 1].milliseconds else 0
  }

  /** The latest report of a kind that a known camera took, and when: doorbells need support. */
  function LatestReport(steps: seq<Step>, key: Key): Option<Report> {
    if steps == [] then None
    else
      var before, step := steps[..|steps| - 1], steps[|steps| - 1];
      var identity := LatestIdentity(before, key.1);
      if step.Record? && step.kind == key.0 && step.serial == key.1 && identity.Some?
         && (key.0 == Doorbell ==> identity.value.doorbellSupported)
      then Some(Report(step.detected, Elapsed(before)))
      else LatestReport(before, key)
  }

  lemma ObserveKeepsHistory(s: State, hold: nat, serial: string, detected: bool, d: Detection)
    requires serial in s.cameras
    ensures var t := Observe(s, hold, serial, detected, d); t.now == s.now && t.reports == s.reports
  {
  }

  lemma StepOnReports(s: State, hold: nat, step: Step)
    ensures var t := Apply(s, hold, step);
            && t.now == s.now + (if step.Advance? then step.milliseconds else 0)
            && t.reports ==
               if step.Record? && step.serial in s.cameras
                  && (step.kind == Doorbell ==> s.cameras[step.serial].identity.doorbellSupported)
               then s.reports[(step.kind, step.serial) := Report(step.detected, s.now)] else s.reports
  {
    hide Observe, NextStream;
    if step.Record? && step.serial in s.cameras {
      ObserveKeepsHistory(s, hold, step.serial, step.detected,
                          DetectionOf(step.kind, step.personName, step.occurredAt, step.id));
    } else if step.Fire? && step.serial in s.cameras {
      ObserveKeepsHistory(s.(timers := s.timers - {(step.kind, step.serial)}), hold, step.serial, false,
                          DetectionOf(step.kind, None, 0, ""));
    }
  }

  /** The history of reports and the clock are what the steps say. */
  lemma {:induction false} ReportsAreLatest(hold: nat, steps: seq<Step>, key: Key)
    ensures var s := Run(hold, steps);
            && s.now == Elapsed(steps)
            && (key in s.reports <==> LatestReport(steps, key).Some?)
            && (key in s.reports ==> s.reports[key] == LatestReport(steps, key).value)
  {
    hide Apply;
    if steps == [] {
      NothingRun(hold);
    } else {
      var before, step := steps[..|steps| - 1], steps[|steps| - 1];
      ReportsAreLatest(hold, before, key);
      StepOnReports(Run(hold, before), hold, step);
      if step.Record? {
        CamerasShowTheLatest(hold, before, step.serial);
      }
    }
  }

  /**
   * The timestamp rule from the steps alone: a motion or person flag is on
   * exactly while its latest report was true and came less than the hold ago,
   * and a doorbell's as long as none of its clears is refused; a clear timer
   * that is overdue has yet to fire.
   */
  lemma {:induction false} FlagsFollowSteps(hold: nat, steps: seq<Step>, key: Key)
    requires key.0 == Doorbell ==> ClearsAreEffective(hold, steps, key)
    ensures var s, latest := Run(hold, steps), LatestReport(steps, key);
            var held := latest.Some? && latest.value.detected && Elapsed(steps) < latest.value.at + hold;
            && (held ==> key.1 in s.cameras && s.cameras[key.1].Flag(key.0))
            && (key in s.timers ==> latest.Some? && latest.value.detected && s.timers[key] == latest.value.at + hold)
            && ((key in s.timers ==> Elapsed(steps) < s.timers[key]) ==>
                  (held <==> key.1 in s.cameras && s.cameras[key.1].Flag(key.0)))
  {
    hide Run, ClearsAreEffective;
    FlagsFollowReports(hold, steps, key);
    ReportsAreLatest(hold, steps, key);
  }

  /** What every run keeps, with the steps that led here. */
  ghost predicate RunKeeps(s: State, hold: nat, steps: seq<Step>) {
    && KeyedBySerial(s.cameras)
    && (forall serial :: serial in s.cameras ==> StreamFits(s.cameras[serial].stream))
    && (forall serial :: serial in s.cameras ==> Shows(s.cameras[serial], steps, serial))
    && (forall key: Key :: key.0 != Doorbell || ClearsAreEffective(hold, steps, key) ==> FollowsReports(s, hold, key))
  }

  lemma {:induction false} RunsKeep(hold: nat, steps: seq<Step>)
    ensures RunKeeps(Run(hold, steps), hold, steps)
  {
    hide Run, StreamFits, Shows, FollowsReports, ClearsAreEffective, KeyedBySerial;
    RunIsKeyed(hold, steps);
    var s := Run(hold, steps);
    forall serial | serial in s.cameras ensures StreamFits(s.cameras[serial].stream) {
      StreamsFit(hold, steps, serial);
    }
    forall serial | serial in s.cameras ensures Shows(s.cameras[serial], steps, serial) {
      CamerasShowTheLatest(hold, steps, serial);
    }
    forall key: Key | key.0 != Doorbell || ClearsAreEffective(hold, steps, key) ensures FollowsReports(s, hold, key) {
      FlagsFollowReports(hold, steps, key);
    }
  }

  /** The detection of a report; only a person's can carry a name. */
  ghost function Seen(kind: Kind, personName: Option<string>, occurredAt: int, id: string): Detection {
    Detection(id, kind, occurredAt, if kind == Person then personName else None, kind == Person && personName.Some?)
  }

  /** What a report makes of a camera: its own flag, and the detection unless motion follows a person too soon. */
  ghost predicate Reported(
    was: Camera, camera: Camera, kind: Kind, detected: bool, personName: Option<string>, occurredAt: int, id: string)
  {
    && camera.identity == was.identity && camera.snapshot == was.snapshot && camera.stream == was.stream
    && camera.motionDetected == (if kind == Motion then detected else was.motionDetected)
    && camera.personDetected == (if kind == Person then detected else was.personDetected)
    && camera.doorbellPressed == (if kind == Doorbell then detected else was.doorbellPressed)
    && var soon := was.lastDetection.Some? && was.lastDetection.value.kind == Person
                   && 0 <= occurredAt - was.lastDetection.value.occurredAt <= 10_000;
       camera.lastDetection == if !detected || (kind == Motion && soon) then was.lastDetection
                               else Some(Seen(kind, personName, occurredAt, id))
  }

  /**
   * What a report of a known camera does: a doorbell without support is
   * ignored; otherwise the camera is changed, its clear timer of that kind
   * armed for a true report and disarmed for a false one, and the detection
   * announced before the camera.
   */
  ghost predicate Reports(
    s: State, t: State, hold: nat, serial: string, kind: Kind, detected: bool, personName: Option<string>,
    occurredAt: int, id: string)
    requires serial in s.cameras
  {
    if kind == Doorbell && !s.cameras[serial].identity.doorbellSupported then t == s
    else
      && serial in t.cameras
      && Reported(s.cameras[serial], t.cameras[serial], kind, detected, personName, occurredAt, id)
      && t == s.(
           cameras := s.cameras[serial := t.cameras[serial]],
           timers := if detected then s.timers[(kind, serial) := s.now + hold] else s.timers - {(kind, serial)},
           events := s.events + if detected then [Detected(serial, Seen(kind, personName, occurredAt, id)),
                                                  CameraUpdated(t.cameras[serial])]
                                else [CameraUpdated(t.cameras[serial])])
  }

  /** A false report that is taken turns its flag off. */
  lemma ReportsClear(s: State, t: State, hold: nat, serial: string, kind: Kind)
    requires serial in s.cameras && Reports(s, t, hold, serial, kind, false, None, 0, "")
    ensures serial in t.cameras && t.cameras[serial].identity == s.cameras[serial].identity
    ensures Accepts(t.cameras[serial], kind) ==> !t.cameras[serial].Flag(kind)
  {
  }

  /** A due clear: forgotten, and then a false report. */
  lemma FireStep(s: State, hold: nat, kind: Kind, serial: string)
    requires Due(s, kind, serial)
    ensures var fired, t := s.(timers := s.timers - {(kind, serial)}), Apply(s, hold, Fire(kind, serial));
            if serial !in s.cameras then t == fired
            else
              && t == Observe(fired, hold, serial, false, DetectionOf(kind, None, 0, ""))
              && Reports(fired, t, hold, serial, kind, false, None, 0, "")
              && serial in t.cameras && (Accepts(t.cameras[serial], kind) ==> !t.cameras[serial].Flag(kind))
  {
    hide Observe, Reports, DetectionOf, Accepts, Camera.Flag;
    var fired := s.(timers := s.timers - {(kind, serial)});
    if serial in s.cameras {
      ObserveReports(fired, hold, serial, kind, false, None, 0, "");
      ReportsClear(fired, Apply(s, hold, Fire(kind, serial)), hold, serial, kind);
    }
  }

  lemma ObserveReports(
    s: State, hold: nat, serial: string, kind: Kind, detected: bool, personName: Option<string>,
    occurredAt: int, id: string)
    requires serial in s.cameras
    ensures Reports(s, Observe(s, hold, serial, detected, DetectionOf(kind, personName, occurredAt, id)),
                    hold, serial, kind, detected, personName, occurredAt, id)
  {
  }

  /** The class, its three timer maps and its `event` channel. */
  class GatewayState {
    const hold: nat
    var cameras: map<string, Camera>
    var motionClearTimers: map<string, nat>
    var personClearTimers: map<string, nat>
    var doorbellClearTimers: map<string, nat>
    var now: nat
    var events: seq<Event>
    /** History: the latest accepted reports. */
    var reports: map<Key, Report>
    var stations: map<string, StationOperations.Station>
    var connection: (string, Option<string>)
    /** History: every step taken. */
    ghost var log: seq<Step>

    ghost function View(): State
      reads this
    {
      State(cameras, Merged(motionClearTimers, personClearTimers, doorbellClearTimers), now, events, reports,
            stations, connection)
    }

    /** The cameras are where the run of these steps ends. */
    ghost predicate Valid()
      reads this
    {
      View() == Run(hold, log)
    }

    /** Cameras under their serials, start times with streams, flags by the timestamp rule. */
    ghost predicate Kept()
      reads this
    {
      RunKeeps(View(), hold, log)
    }

    constructor (hold: nat)
      ensures Valid() && Kept() && this.hold == hold && log == []
    {
      this.hold := hold;
      cameras, motionClearTimers, personClearTimers, doorbellClearTimers := map[], map[], map[], map[];
      now, events, reports := 0, [], map[];
      stations, connection, log := map[], ("starting", None), [];
      new;
      NothingRun(hold);
      RunsKeep(hold, []);
    }

    /** Note a step that was taken. */
    ghost method Took(step: Step)
      requires View() == Apply(Run(hold, log), hold, step)
      modifies this`log
      ensures Valid() && Kept() && log == old(log) + [step]
      ensures Publishes(Run(hold, old(log)), View())
    {
      hide Run, Apply, RunKeeps, Merged, Publishes;
      RunIsKeyed(hold, log);
      ApplyPublishes(Run(hold, log), hold, step);
      Extends(hold, log, step);
      RunsKeep(hold, log + [step]);
      log := log + [step];
    }

    /** Time passes; timers that become due may fire from then on. */
    method ClockAdvances(milliseconds: nat)
      requires Valid()
      modifies this
      ensures Valid() && Kept() && log == old(log) + [Advance(milliseconds)]
      ensures View() == old(View()).(now := old(now) + milliseconds)
      ensures Publishes(old(View()), View())
    {
      hide Run, Kept, Merged, Publishes;
      now := now + milliseconds;
      Took(Advance(milliseconds));
    }

    method EmitEvent(e: Event)
      modifies this`events
      ensures events == old(events) + [e]
    {
      events := events + [e];
    }

    method EmitCamera(serial: string)
      requires serial in cameras
      modifies this`events
      ensures events == old(events) + [CameraUpdated(cameras[serial])]
    {
      EmitEvent(CameraUpdated(cameras[serial]));
    }

    method RegisterCamera(identity: Identity)
      requires Valid()
      modifies this
      ensures Valid() && Kept() && log == old(log) + [Register(identity)]
      ensures var camera := if identity.serial in old(cameras) then old(cameras)[identity.serial].(identity := identity)
                            else Camera(identity, false, false, false, None, None,
                                        Stream(LiveStream.Idle, 0, None, None));
              View() == old(View()).(cameras := old(cameras)[identity.serial := camera],
                                     events := old(events) + [CameraUpdated(camera)])
      ensures Publishes(old(View()), View())
    {
      hide Run, Kept, Merged, Publishes;
      var serial := identity.serial;
      if serial in cameras {
        cameras := cameras[serial := cameras[serial].(identity := identity)];
      } else {
        cameras := cameras[serial := NewCamera(identity)];
      }
      EmitCamera(serial);
      Took(Register(identity));
    }

    method RestoreSnapshot(serial: string, snapshot: Snapshots.Info) returns (threw: bool)
      requires Valid()
      modifies this
      ensures threw == (serial !in old(cameras))
      ensures Valid() && Kept() && log == old(log) + [Restore(serial, snapshot)]
      ensures threw ==> View() == old(View())
      ensures !threw ==>
                var camera := old(cameras)[serial].(snapshot := Some(snapshot));
                View() == old(View()).(cameras := old(cameras)[serial := camera],
                                       events := old(events) + [CameraUpdated(camera)])
      ensures Publishes(old(View()), View())
    {
      hide Run, Kept, Merged, Publishes;
      if serial !in cameras {
        Took(Restore(serial, snapshot));
        return true;
      }
      cameras := cameras[serial := cameras[serial].(snapshot := Some(snapshot))];
      EmitCamera(serial);
      threw := false;
      Took(Restore(serial, snapshot));
    }

    /** `#scheduleDetectionClear` on the timer map of a kind. */
    method ScheduleDetectionClear(kind: Kind, serial: string, detected: bool)
      modifies this`motionClearTimers, this`personClearTimers, this`doorbellClearTimers
      ensures View() == old(View()).(timers := Schedule(old(View()).timers, (kind, serial), detected, now + hold))
    {
      hide Merged, Schedule;
      MergedSchedules(motionClearTimers, personClearTimers, doorbellClearTimers, kind, serial, detected, now + hold);
      match kind {
        case Motion =>
          motionClearTimers := Rearm(motionClearTimers, serial, detected);
        case Person =>
          personClearTimers := Rearm(personClearTimers, serial, detected);
        case Doorbell =>
          doorbellClearTimers := Rearm(doorbellClearTimers, serial, detected);
      }
    }

    method Rearm(timers: map<string, nat>, serial: string, detected: bool) returns (rearmed: map<string, nat>)
      ensures rearmed == ScheduleOne(timers, serial, detected, now + hold)
    {
      rearmed := timers - {serial};
      if !detected {
        return;
      }
      rearmed := rearmed[serial := now + hold];
      assert rearmed == timers[serial := now + hold];
    }

    /** The common body of `recordMotion`, `recordPerson` and `recordDoorbell`, after the camera is found. */
    method RecordDetection(serial: string, detected: bool, d: Detection)
      requires serial in cameras
      modifies this`cameras, this`motionClearTimers, this`personClearTimers, this`doorbellClearTimers, this`events
      ensures View() == Observe(old(View()), hold, serial, detected, d)
    {
      hide Merged, Schedule;
      var camera := cameras[serial];
      if d.kind == Doorbell && !camera.identity.doorbellSupported {
        return;
      }
      camera := camera.WithFlag(d.kind, detected);
      ScheduleDetectionClear(d.kind, serial, detected);
      if detected {
        if d.kind != Motion || !IsRecentPerson(camera.lastDetection, d.occurredAt) {
          camera := camera.(lastDetection := Some(d));
        }
        EmitEvent(Detected(serial, d));
      }
      cameras := cameras[serial := camera];
      EmitCamera(serial);
    }

    method RecordReport(
      kind: Kind, serial: string, detected: bool, personName: Option<string>, occurredAt: int, id: string)
      returns (threw: bool)
      requires Valid()
      modifies this
      ensures threw == (serial !in old(cameras))
      ensures Valid() && Kept() && log == old(log) + [Record(kind, serial, detected, personName, occurredAt, id)]
      ensures threw ==> View() == old(View())
      ensures !threw ==>
                var accepted := kind == Doorbell ==> old(cameras)[serial].identity.doorbellSupported;
                && Reports(old(View()), View().(reports := old(reports)), hold,
                           serial, kind, detected, personName, occurredAt, id)
                && reports == if accepted then old(reports)[(kind, serial) := Report(detected, old(now))]
                              else old(reports)
      ensures Publishes(old(View()), View())
    {
      if serial in cameras {
        ObserveReports(View(), hold, serial, kind, detected, personName, occurredAt, id);
      }
      hide Run, Kept, Merged, Publishes, Observe, Reports, DetectionOf;
      if serial !in cameras {
        Took(Record(kind, serial, detected, personName, occurredAt, id));
        return true;
      }
      var accepted := Accepts(cameras[serial], kind);
      RecordDetection(serial, detected, DetectionOf(kind, personName, occurredAt, id));
      if accepted {
        reports := reports[(kind, serial) := Report(detected, now)];
      }
      threw := false;
      Took(Record(kind, serial, detected, personName, occurredAt, id));
    }

    /** The callback of a clear timer: forget the timer, then report false. */
    method ClearTimerFires(kind: Kind, serial: string)
      requires Valid() && Due(View(), kind, serial)
      modifies this
      ensures Valid() && Kept() && log == old(log) + [Fire(kind, serial)]
      ensures var fired := old(View()).(timers := old(View()).timers - {(kind, serial)});
              if serial !in fired.cameras then View() == fired
              else Reports(fired, View(), hold, serial, kind, false, None, 0, "")
      ensures Publishes(old(View()), View())
    {
      FireStep(View(), hold, kind, serial);
      hide Run, Kept, Merged, Publishes, Observe, Reports, DetectionOf, Accepts, Camera.Flag, Apply, Due;
      ScheduleDetectionClear(kind, serial, false);
      if serial in cameras {
        RecordDetection(serial, false, DetectionOf(kind, None, 0, ""));
      }
      Took(Fire(kind, serial));
    }

    method PublishSnapshot(serial: string, snapshot: Snapshots.Info) returns (threw: bool)
      requires Valid()
      modifies this
      ensures threw == (serial !in old(cameras))
      ensures Valid() && Kept() && log == old(log) + [UpdateSnapshot(serial, snapshot)]
      ensures threw ==> View() == old(View())
      ensures !threw ==>
                var camera := old(cameras)[serial].(snapshot := Some(snapshot));
                View() == old(View()).(cameras := old(cameras)[serial := camera],
                                       events := old(events) + [SnapshotUpdated(serial, snapshot),
                                                                CameraUpdated(camera)])
      ensures Publishes(old(View()), View())
    {
      hide Run, Kept, Merged, Publishes;
      if serial !in cameras {
        Took(UpdateSnapshot(serial, snapshot));
        return true;
      }
      cameras := cameras[serial := cameras[serial].(snapshot := Some(snapshot))];
      EmitEvent(SnapshotUpdated(serial, snapshot));
      EmitCamera(serial);
      threw := false;
      Took(UpdateSnapshot(serial, snapshot));
    }

    method PublishStream(serial: string, state: LiveStream.StreamState, viewers: nat, error: Option<string>, at: int)
      returns (threw: bool)
      requires Valid()
      modifies this
      ensures threw == (serial !in old(cameras))
      ensures Valid() && Kept() && log == old(log) + [UpdateStream(serial, state, viewers, error, at)]
      ensures threw ==> View() == old(View())
      ensures !threw ==>
                var was := old(cameras)[serial].stream;
                var startedAt := if state == LiveStream.Streaming
                                 then (if was.startedAt.Some? then was.startedAt else Some(at))
                                 else if state == LiveStream.Idle || state == LiveStream.Error then None
                                 else was.startedAt;
                var camera := old(cameras)[serial].(stream := Stream(state, viewers, startedAt, error));
                View() == old(View()).(cameras := old(cameras)[serial := camera],
                                       events := old(events) + [CameraUpdated(camera)])
      ensures Publishes(old(View()), View())
    {
      hide Run, Kept, Merged, Publishes;
      if serial !in cameras {
        Took(UpdateStream(serial, state, viewers, error, at));
        return true;
      }
      var stream := cameras[serial].stream.(state := state, viewers := viewers, lastError := error);
      if state == LiveStream.Streaming && stream.startedAt.None? {
        stream := stream.(startedAt := Some(at));
      } else if state == LiveStream.Idle || state == LiveStream.Error {
        stream := stream.(startedAt := None);
      }
      cameras := cameras[serial := cameras[serial].(stream := stream)];
      EmitCamera(serial);
      threw := false;
      Took(UpdateStream(serial, state, viewers, error, at));
    }

    method PublishConnection(connection: string, detail: Option<string>)
      requires Valid()
      modifies this
      ensures Valid() && Kept() && log == old(log) + [UpdateConnection(connection, detail)]
      ensures View() == old(View()).(connection := (connection, detail),
                                     events := old(events) + [ConnectionUpdated(connection, detail)])
      ensures Publishes(old(View()), View())
    {
      hide Run, Kept, Merged, Publishes;
      this.connection := (connection, detail);
      EmitEvent(ConnectionUpdated(connection, detail));
      Took(UpdateConnection(connection, detail));
    }

    method PublishStation(serial: string, station: StationOperations.Station)
      requires Valid()
      modifies this
      ensures Valid() && Kept() && log == old(log) + [RegisterStation(serial, station)]
      ensures View() == old(View()).(stations := old(stations)[serial := station],
                                     events := old(events) + [StationUpdated(serial, station)])
      ensures Publishes(old(View()), View())
    {
      hide Run, Kept, Merged, Publishes;
      stations := stations[serial := station];
      EmitEvent(StationUpdated(serial, station));
      Took(RegisterStation(serial, station));
    }
  }
}
