/**
 * The media lifecycle of one camera (`LiveStreamManager`), as steps between
 * awaits that may interleave in any order.
 */
module LiveStream {
  import opened Bytes

  const MAX_RECORDING_BYTES: nat := 256 * 1024 * 1024

  datatype StreamState = Idle | Starting | Streaming | Stopping | Error

  /** `Cleared` is a handle that `close` disarmed but did not forget. */
  datatype StopTimer = NoTimer | Armed(due: nat) | Cleared

  datatype Outcome = Resolved(data: bytes) | Rejected | Cancelled

  /**
   * A clip recording. `from` and `until` delimit what it collected in the log
   * of delivered chunks; `calls` counts how often it was settled or cancelled.
   */
  datatype Recording = Recording(
    chunks: seq<bytes>,
    size: nat,
    duration: nat,
    started: bool,
    startTimer: Option<nat>,
    durationTimer: Option<nat>,
    from: nat,
    until: nat,
    calls: nat,
    outcome: Option<Outcome>)

  /**
   * A session. `active` is its set of recordings, `operations` are the
   * captures and recordings between their acquire and their `finally`,
   * `published` is the last state and viewer count reported.
   */
  datatype State = State(
    clients: set<nat>,
    active: set<nat>,
    state: StreamState,
    source: bool,
    stopTimer: StopTimer,
    owned: bool,
    leases: int,
    closed: bool,
    now: nat,
    recordings: map<nat, Recording>,
    operations: set<nat>,
    delivered: seq<bytes>,
    published: (StreamState, nat))

  const FRESH := State({}, {}, Idle, false, NoTimer, false, 0, false, 0, map[], {}, [], (Idle, 0))

  datatype Event =
    | AddClient(client: nat)
    | ClientClosed(client: nat)
    | BeginCapture(id: nat)
    | BeginRecording(id: nat, duration: nat, startTimeout: nat)
    | Finish(id: nat)
    | StartRejected
    | Attach
    | Chunk(chunk: bytes)
    | SourceEnded(failed: bool)
    | MarkStopped
    | StopTimerFires
    | StopRejected
    | BeginStopNow
    | StopNowResolved
    | StartTimerFires(id: nat)
    | DurationTimerFires(id: nat)
    | Close
    | Tick(milliseconds: nat)

  // The private helpers

  predicate KeepsRecordings(s: State, t: State) {
    t.recordings == s.recordings && t.active == s.active && t.delivered == s.delivered
  }

  /** Nothing but the recordings and the chunk log differs. */
  predicate SameApartFromRecordings(s: State, t: State) {
    t == s.(active := t.active, recordings := t.recordings, delivered := t.delivered)
  }

  function Count(ids: set<nat>): nat { |ids| }

  function UpdateState(s: State): (t: State)
    ensures KeepsRecordings(s, t)
  {
    s.(published := (s.state, Count(s.clients)))
  }

  function CancelStop(s: State): State {
    s.(stopTimer := NoTimer)
  }

  function ScheduleStopIfUnused(s: State, grace: nat): (t: State)
    ensures KeepsRecordings(s, t)
  {
    if !s.closed && s.clients == {} && s.leases == 0 && s.owned && s.stopTimer.NoTimer?
    then s.(stopTimer := Armed(s.now + grace))
    else s
  }

  /** The part of `#ensureStarted` before its await. */
  function EnsureStarted(s: State): (t: State)
    ensures KeepsRecordings(s, t)
  {
    if s.closed || (s.state != Idle && s.state != Error) then s
    else UpdateState(s.(state := Starting, owned := true))
  }

  function CleanupSource(s: State): State {
    s.(source := false)
  }

  function Settle(r: Recording, outcome: Outcome): Recording {
    r.(startTimer := None, durationTimer := None, calls := r.calls + 1, outcome := Some(outcome))
  }

  /** Settle one recording if it is still in the set. */
  function SettleOne(s: State, id: nat, outcome: Outcome): (t: State)
    ensures SameApartFromRecordings(s, t)
  {
    if id !in s.active || id !in s.recordings then s
    else s.(active := s.active - {id}, recordings := s.recordings[id := Settle(s.recordings[id], outcome)])
  }

  function FailRecordings(s: State): (t: State)
    ensures SameApartFromRecordings(s, t)
  {
    s.(active := {},
       recordings := map id | id in s.recordings ::
         if id in s.active then Settle(s.recordings[id], Rejected) else s.recordings[id])
  }

  function Append(r: Recording, chunk: bytes, now: nat): Recording {
    var begun :=
      if r.started then r else r.(started := true, startTimer := None, durationTimer := Some(now + r.duration));
    begun.(chunks := begun.chunks + [chunk], size := begun.size + |chunk|, until := begun.until + 1)
  }

  /** Append, and reject a recording that outgrew the limit. */
  function AppendOrFail(r: Recording, chunk: bytes, now: nat): Recording {
    var longer := Append(r, chunk, now);
    if longer.size > MAX_RECORDING_BYTES then Settle(longer, Rejected) else longer
  }

  function Deliver(s: State, chunk: bytes): (t: State)
    ensures SameApartFromRecordings(s, t)
  {
    s.(delivered := s.delivered + [chunk],
       active := (set id | id in s.active && id in s.recordings &&
                           s.recordings[id].size + |chunk| <= MAX_RECORDING_BYTES),
       recordings := map id | id in s.recordings ::
         if id in s.active then AppendOrFail(s.recordings[id], chunk, s.now) else s.recordings[id])
  }

  function Acquire(s: State, id: nat): (t: State)
    ensures KeepsRecordings(s, t)
  {
    UpdateState(CancelStop(s).(leases := s.leases + 1, operations := s.operations + {id}))
  }

  function NewRecording(s: State, id: nat, duration: nat, startTimeout: nat): (t: State)
    ensures SameApartFromRecordings(s, t)
  {
    var at := |s.delivered|;
    s.(active := s.active + {id},
       recordings := s.recordings[id :=
         Recording([], 0, duration, false, Some(s.now + startTimeout), None, at, at, 0, None)])
  }

  function EndSource(s: State, next: StreamState): State {
    UpdateState(CleanupSource(FailRecordings(s)).(state := next, owned := false, clients := {}))
  }

  /** What one step does. Ids of operations are used once; timers fire only when armed and due. */
  function Step(s: State, e: Event, grace: nat): State {
    match e
    case AddClient(client) =>
      EnsureStarted(UpdateState(CancelStop(s).(clients := s.clients + {client})))
    case ClientClosed(client) =>
      ScheduleStopIfUnused(UpdateState(s.(clients := s.clients - {client})), grace)
    case BeginCapture(id) =>
      if s.closed || id in s.operations || id in s.recordings then s
      else EnsureStarted(Acquire(s, id))
    case BeginRecording(id, duration, startTimeout) =>
      if id in s.operations || id in s.recordings then s
      else EnsureStarted(NewRecording(Acquire(s, id), id, duration, startTimeout))
    case Finish(id) =>
      if id !in s.operations then s
      else ScheduleStopIfUnused(
        SettleOne(s, id, Cancelled).(leases := s.leases - 1, operations := s.operations - {id}), grace)
    case StartRejected => UpdateState(s.(state := Error, owned := false))
    case Attach => UpdateState(s.(source := true, state := Streaming))
    case Chunk(chunk) => if s.source then Deliver(s, chunk) else s
    case SourceEnded(failed) => if s.state == Idle then s else EndSource(s, if failed then Error else Idle)
    case MarkStopped => EndSource(s, Idle)
    case StopTimerFires =>
      if s.stopTimer.Armed? && s.stopTimer.due <= s.now
      then UpdateState(s.(stopTimer := NoTimer, state := Stopping))
      else s
    case StopRejected => UpdateState(s.(state := Error))
    case BeginStopNow =>
      if s.clients != {} || s.leases > 0 || !s.owned then s
      else UpdateState(CancelStop(s).(state := Stopping))
    case StopNowResolved =>
      if s.state == Stopping then UpdateState(CleanupSource(s).(state := Idle, owned := false)) else s
    case StartTimerFires(id) =>
      if id in s.recordings && s.recordings[id].startTimer.Some? && s.recordings[id].startTimer.value <= s.now
      then SettleOne(s, id, Rejected)
      else s
    case DurationTimerFires(id) =>
      if id in s.recordings && s.recordings[id].durationTimer.Some? && s.recordings[id].durationTimer.value <= s.now
      then SettleOne(s, id, Resolved(Flatten(s.recordings[id].chunks)))
      else s
    case Close =>
      if s.closed then s
      else
        var stopTimer := if s.stopTimer.Armed? then Cleared else s.stopTimer;
        CleanupSource(FailRecordings(s)).(closed := true, stopTimer := stopTimer)
    case Tick(milliseconds) => s.(now := s.now + milliseconds)
  }

  function Run(events: seq<Event>, grace: nat): State {
    if events == [] then FRESH else Step(Run(events[..|events| - 1], grace), events[|events| - 1], grace)
  }

  predicate Unused(s: State) { s.clients == {} && s.operations == {} }

  /** The last time the session had a consumer. */
  function LastUse(events: seq<Event>, grace: nat): nat {
    if events == [] then 0
    else
      var before := events[..|events| - 1];
      if Unused(Run(before, grace)) && Unused(Run(events, grace)) then LastUse(before, grace)
      else Run(events, grace).now
  }

  // Counts, publication, timers

  /** A lease per operation, and what was published is what is. */
  ghost predicate Accounts(s: State) {
    && s.leases == Count(s.operations)
    && s.published == (s.state, Count(s.clients))
  }

  lemma OneMember(ids: set<nat>, id: nat)
    ensures id in ids ==> Count(ids - {id}) == Count(ids) - 1
    ensures id !in ids ==> Count(ids + {id}) == Count(ids) + 1
    ensures Count(ids) == 0 <==> ids == {}
    ensures Count(ids - {id}) == 0 <==> ids - {id} == {}
  {
  }

  lemma StepKeepsAccounts(s: State, e: Event, grace: nat)
    requires Accounts(s)
    ensures Accounts(Step(s, e, grace))
  {
    hide FailRecordings, Deliver, SettleOne, NewRecording, Count;
    match e
    case BeginCapture(id) => OneMember(s.operations, id);
    case BeginRecording(id, _, _) => OneMember(s.operations, id);
    case Finish(id) => OneMember(s.operations, id);
    case _ =>
  }

  /** An armed grace timer means nobody uses the session, and has not for the whole grace. */
  ghost predicate IdleWhenArmed(s: State, lastUse: nat, grace: nat) {
    && lastUse <= s.now
    && (s.stopTimer.Armed? ==> !s.closed && Unused(s) && s.leases == 0 && lastUse + grace <= s.stopTimer.due)
  }

  /** An open, owned, unused session is about to stop, stopping, or failed. */
  ghost predicate NoOrphan(s: State) {
    !s.closed && s.owned && Unused(s) ==> s.stopTimer.Armed? || s.state == Stopping || s.state == Error
  }

  /** After close no handle is armed; while open none is stale. */
  ghost predicate TimerFits(s: State) {
    if s.closed then !s.stopTimer.Armed? else s.stopTimer != Cleared
  }

  function LastUseAfter(s: State, t: State, lastUse: nat): nat {
    if Unused(s) && Unused(t) then lastUse else t.now
  }

  /** Steps that add or remove a viewer or an operation. */
  predicate IsConsumerStep(e: Event) {
    e.AddClient? || e.ClientClosed? || e.BeginCapture? || e.BeginRecording? || e.Finish?
  }

  lemma {:induction false} ConsumerKeepsIdle(s: State, e: Event, grace: nat, lastUse: nat)
    requires Accounts(s) && TimerFits(s) && IdleWhenArmed(s, lastUse, grace) && IsConsumerStep(e)
    ensures var t := Step(s, e, grace);
            TimerFits(t) && IdleWhenArmed(t, LastUseAfter(s, t, lastUse), grace)
  {
    hide FailRecordings, Deliver, SettleOne, NewRecording, Count;
    if e.Finish? {
      OneMember(s.operations, e.id);
    } else if e.ClientClosed? {
      OneMember(s.operations, 0);
    }
  }

  lemma StepKeepsIdle(s: State, e: Event, grace: nat, lastUse: nat)
    requires Accounts(s) && TimerFits(s) && IdleWhenArmed(s, lastUse, grace)
    ensures var t := Step(s, e, grace);
            TimerFits(t) && IdleWhenArmed(t, LastUseAfter(s, t, lastUse), grace)
  {
    if IsConsumerStep(e) {
      ConsumerKeepsIdle(s, e, grace, lastUse);
    } else {
      hide FailRecordings, Deliver, SettleOne, NewRecording, Count;
    }
  }

  /** A source may attach exactly when the session is in use, not owned, closed, or has its timer armed. */
  predicate MayAttach(s: State) {
    s.closed || !s.owned || !Unused(s) || s.stopTimer.Armed?
  }

  /** One step keeps an owned unused session on its way to a stop exactly if it is no attach out of turn. */
  lemma StepKeepsNoOrphanIff(s: State, e: Event, grace: nat)
    requires Accounts(s) && TimerFits(s) && NoOrphan(s)
    ensures NoOrphan(Step(s, e, grace)) <==> (e == Attach ==> MayAttach(s))
  {
    hide FailRecordings, Deliver, SettleOne, NewRecording, Count;
    if e.Finish? {
      OneMember(s.operations, e.id);
    } else {
      OneMember(s.operations, 0);
    }
  }

  lemma {:induction false} RunIsAccounted(events: seq<Event>, grace: nat)
    ensures var s := Run(events, grace);
            Accounts(s) && TimerFits(s) && IdleWhenArmed(s, LastUse(events, grace), grace)
  {
    hide Step;
    if events == [] {
      assert Accounts(FRESH);
    } else {
      var before := events[..|events| - 1];
      RunIsAccounted(before, grace);
      StepKeepsAccounts(Run(before, grace), events[|events| - 1], grace);
      StepKeepsIdle(Run(before, grace), events[|events| - 1], grace, LastUse(before, grace));
    }
  }

  /**
   * Idle stop is never premature: in every run the leases count the
   * operations in flight, and whenever the grace timer may fire nobody uses
   * the session and nobody has for at least the grace period.
   */
  lemma {:induction false} IdleStopIsNeverPremature(events: seq<Event>, grace: nat)
    ensures var s := Run(events, grace);
            && s.leases == |s.operations|
            && s.published == (s.state, |s.clients|)
            && (s.stopTimer.Armed? ==> s.clients == {} && s.operations == {} && s.leases == 0)
            && (s.stopTimer.Armed? && s.stopTimer.due <= s.now ==> LastUse(events, grace) + grace <= s.now)
  {
    RunIsAccounted(events, grace);
  }

  // Orphans

  /** Sources arrive only when they may. */
  predicate AttachesAreSafe(events: seq<Event>, grace: nat) {
    forall n :: 0 <= n < |events| && events[n] == Attach ==> MayAttach(Run(events[..n], grace))
  }

  ghost predicate NeverOrphaned(events: seq<Event>, grace: nat) {
    forall n :: 0 <= n <= |events| ==> NoOrphan(Run(events[..n], grace))
  }

  lemma SafeOneMore(events: seq<Event>, grace: nat)
    requires events != []
    ensures var before, e := events[..|events| - 1], events[|events| - 1];
            AttachesAreSafe(events, grace) <==>
            AttachesAreSafe(before, grace) && (e == Attach ==> MayAttach(Run(before, grace)))
  {
    hide Run, MayAttach;
    var before := events[..|events| - 1];
    assert forall n :: 0 <= n < |before| ==> before[..n] == events[..n] && before[n] == events[n];
  }

  lemma NeverOneMore(events: seq<Event>, grace: nat)
    requires events != []
    ensures NeverOrphaned(events, grace) <==>
            NeverOrphaned(events[..|events| - 1], grace) && NoOrphan(Run(events, grace))
  {
    hide Run, NoOrphan;
    var before := events[..|events| - 1];
    assert events[..|events|] == events;
    if NeverOrphaned(events, grace) {
      forall n | 0 <= n <= |before| ensures NoOrphan(Run(before[..n], grace)) {
        assert before[..n] == events[..n];
      }
      assert NoOrphan(Run(events[..|events|], grace));
    }
    if NeverOrphaned(before, grace) && NoOrphan(Run(events, grace)) {
      forall n | 0 <= n <= |events| ensures NoOrphan(Run(events[..n], grace)) {
        if n < |events| {
          assert before[..n] == events[..n];
        }
      }
    }
  }

  /**
   * No orphaned source: whatever arrives, leaves, fails, ends or stops, in
   * whatever order, throughout a run a session that is owned but unused is
   * about to stop, stopping, or failed, if and only if every source of the run
   * attached when the session was in use, not owned, closed, or had its timer
   * armed.
   */
  lemma {:induction false} NeverOrphanedIff(events: seq<Event>, grace: nat)
    ensures NeverOrphaned(events, grace) <==> AttachesAreSafe(events, grace)
  {
    hide Step, NoOrphan, MayAttach, AttachesAreSafe;
    if events == [] {
      NothingRun(grace);
      FreshIsNoOrphan();
      NoAttachYet(grace);
    } else {
      var before, e := events[..|events| - 1], events[|events| - 1];
      NeverOrphanedIff(before, grace);
      SafeOneMore(events, grace);
      NeverOneMore(events, grace);
      if NeverOrphaned(before, grace) {
        assert before[..|before|] == before;
        RunIsAccounted(before, grace);
        StepKeepsNoOrphanIff(Run(before, grace), e, grace);
      }
    }
  }

  lemma FreshIsNoOrphan()
    ensures NoOrphan(FRESH)
  {
  }

  lemma NoAttachYet(grace: nat)
    ensures AttachesAreSafe([], grace)
  {
  }

  /** Sources arrive only while the session is starting. */
  predicate AttachesAreExpected(events: seq<Event>, grace: nat) {
    forall n :: 0 <= n < |events| && events[n] == Attach ==> Run(events[..n], grace).state == Starting
  }

  lemma ExpectedBefore(events: seq<Event>, grace: nat)
    requires events != [] && AttachesAreExpected(events, grace)
    ensures AttachesAreExpected(events[..|events| - 1], grace)
    ensures events[|events| - 1] == Attach ==> Run(events[..|events| - 1], grace).state == Starting
  {
    var before := events[..|events| - 1];
    forall n | 0 <= n < |before| && before[n] == Attach ensures Run(before[..n], grace).state == Starting {
      assert before[..n] == events[..n];
    }
  }

  /** Sources that arrive while the session is starting always may: they orphan nothing. */
  lemma {:induction false} NoOrphanedSource(events: seq<Event>, grace: nat)
    requires AttachesAreExpected(events, grace)
    ensures AttachesAreSafe(events, grace)
    ensures NoOrphan(Run(events, grace))
  {
    hide Step, AttachesAreSafe, AttachesAreExpected;
    if events == [] {
      FreshIsNoOrphan();
      NoAttachYet(grace);
    } else {
      var before, e := events[..|events| - 1], events[|events| - 1];
      ExpectedBefore(events, grace);
      NoOrphanedSource(before, grace);
      SafeOneMore(events, grace);
      RunIsAccounted(before, grace);
      StepKeepsNoOrphanIff(Run(before, grace), e, grace);
    }
  }

  lemma Extends(before: seq<Event>, e: Event, grace: nat)
    ensures Run(before + [e], grace) == Step(Run(before, grace), e, grace)
  {
    assert (before + [e])[..|before + [e]| - 1] == before;
  }

  /** A source that attaches while the session is stopping is orphaned. */
  lemma {:induction false} AttachWhileStoppingOrphans(grace: nat) returns (events: seq<Event>)
    ensures !NoOrphan(Run(events, grace))
    ensures events != [] && events[|events| - 1] == Attach && Run(events[..|events| - 1], grace).state == Stopping
  {
    hide Run;
    var e1 := [] + [AddClient(0)];
    var e2 := e1 + [ClientClosed(0)];
    var e3 := e2 + [Tick(grace)];
    var e4 := e3 + [StopTimerFires];
    events := e4 + [Attach];
    assert Run([], grace) == FRESH by { NothingRun(grace); }
    Extends([], AddClient(0), grace);
    Extends(e1, ClientClosed(0), grace);
    Extends(e2, Tick(grace), grace);
    Extends(e3, StopTimerFires, grace);
    Extends(e4, Attach, grace);
    assert Run(e1, grace).clients == {0};
    assert Run(e2, grace).clients == {} && Run(e2, grace).stopTimer == Armed(grace);
    assert events[..|events| - 1] == e4;
  }

  lemma NothingRun(grace: nat)
    ensures Run([], grace) == FRESH
  {
  }

  // Ownership of the attached source

  /** A starting session and an attached source are owned. */
  ghost predicate SourceIsOwned(s: State) {
    (s.source || s.state == Starting) ==> s.owned
  }

  /** Sources attach to owned sessions, and no start is rejected once a source is attached. */
  predicate KeepsOwnership(s: State, e: Event) {
    && (e == Attach ==> s.owned)
    && (e == StartRejected ==> !s.source)
  }

  lemma StepKeepsOwnershipIff(s: State, e: Event, grace: nat)
    requires SourceIsOwned(s)
    ensures SourceIsOwned(Step(s, e, grace)) <==> KeepsOwnership(s, e)
  {
    hide FailRecordings, Deliver, SettleOne, NewRecording, Count;
  }

  predicate OwnershipIsKept(events: seq<Event>, grace: nat) {
    forall n :: 0 <= n < |events| ==> KeepsOwnership(Run(events[..n], grace), events[n])
  }

  ghost predicate AlwaysOwned(events: seq<Event>, grace: nat) {
    forall n :: 0 <= n <= |events| ==> SourceIsOwned(Run(events[..n], grace))
  }

  lemma KeptOneMore(events: seq<Event>, grace: nat)
    requires events != []
    ensures var before, e := events[..|events| - 1], events[|events| - 1];
            OwnershipIsKept(events, grace) <==>
            OwnershipIsKept(before, grace) && KeepsOwnership(Run(before, grace), e)
  {
    hide Run, KeepsOwnership;
    var before := events[..|events| - 1];
    assert forall n :: 0 <= n < |before| ==> before[..n] == events[..n] && before[n] == events[n];
  }

  lemma OwnedOneMore(events: seq<Event>, grace: nat)
    requires events != []
    ensures AlwaysOwned(events, grace) <==>
            AlwaysOwned(events[..|events| - 1], grace) && SourceIsOwned(Run(events, grace))
  {
    hide Run, SourceIsOwned;
    var before := events[..|events| - 1];
    assert events[..|events|] == events;
    if AlwaysOwned(events, grace) {
      forall n | 0 <= n <= |before| ensures SourceIsOwned(Run(before[..n], grace)) {
        assert before[..n] == events[..n];
      }
      assert SourceIsOwned(Run(events[..|events|], grace));
    }
    if AlwaysOwned(before, grace) && SourceIsOwned(Run(events, grace)) {
      forall n | 0 <= n <= |events| ensures SourceIsOwned(Run(events[..n], grace)) {
        if n < |events| {
          assert before[..n] == events[..n];
        }
      }
    }
  }

  /**
   * Throughout a run starting sessions and attached sources are owned, if and
   * only if every source attached to an owned session and every start that was
   * rejected was so before a source was attached.
   */
  lemma {:induction false} AlwaysOwnedIff(events: seq<Event>, grace: nat)
    ensures AlwaysOwned(events, grace) <==> OwnershipIsKept(events, grace)
  {
    hide Step, SourceIsOwned, KeepsOwnership, OwnershipIsKept;
    if events == [] {
      NothingRun(grace);
      FreshIsOwned(grace);
    } else {
      var before, e := events[..|events| - 1], events[|events| - 1];
      AlwaysOwnedIff(before, grace);
      KeptOneMore(events, grace);
      OwnedOneMore(events, grace);
      if AlwaysOwned(before, grace) {
        assert before[..|before|] == before;
        StepKeepsOwnershipIff(Run(before, grace), e, grace);
      }
    }
  }

  lemma FreshIsOwned(grace: nat)
    ensures SourceIsOwned(FRESH) && OwnershipIsKept([], grace)
  {
  }

  /** Then an attached source nobody uses always has its stop under way, or the session failed. */
  lemma {:induction false} AttachedSourceIsReleased(events: seq<Event>, grace: nat)
    requires AttachesAreSafe(events, grace) && OwnershipIsKept(events, grace)
    ensures var s := Run(events, grace);
            s.source && !s.closed && Unused(s) ==> s.stopTimer.Armed? || s.state == Stopping || s.state == Error
  {
    hide Run, AttachesAreSafe, OwnershipIsKept;
    NeverOrphanedIff(events, grace);
    AlwaysOwnedIff(events, grace);
    assert events[..|events|] == events;
    assert NoOrphan(Run(events, grace)) && SourceIsOwned(Run(events, grace));
  }

  /** No start is rejected once a source is attached. */
  predicate RejectionsAreEarly(events: seq<Event>, grace: nat) {
    forall n :: 0 <= n < |events| && events[n] == StartRejected ==> !Run(events[..n], grace).source
  }

  lemma EarlyBefore(events: seq<Event>, grace: nat)
    requires events != [] && RejectionsAreEarly(events, grace)
    ensures RejectionsAreEarly(events[..|events| - 1], grace)
    ensures events[|events| - 1] == StartRejected ==> !Run(events[..|events| - 1], grace).source
  {
    var before := events[..|events| - 1];
    forall n | 0 <= n < |before| && before[n] == StartRejected ensures !Run(before[..n], grace).source {
      assert before[..n] == events[..n];
    }
  }

  /** Sources that arrive while starting, and rejections that come before them, keep both. */
  lemma {:induction false} ExpectedRunsAreOwned(events: seq<Event>, grace: nat)
    requires AttachesAreExpected(events, grace) && RejectionsAreEarly(events, grace)
    ensures OwnershipIsKept(events, grace) && SourceIsOwned(Run(events, grace))
  {
    hide Step, OwnershipIsKept, AttachesAreExpected, RejectionsAreEarly;
    if events == [] {
      FreshIsOwned(grace);
    } else {
      var before, e := events[..|events| - 1], events[|events| - 1];
      ExpectedBefore(events, grace);
      EarlyBefore(events, grace);
      ExpectedRunsAreOwned(before, grace);
      KeptOneMore(events, grace);
      StepKeepsOwnershipIff(Run(before, grace), e, grace);
    }
  }

  /** A start abandoned by a stop and rejected late takes the next start's source out of ownership. */
  lemma LateRejectionDisowns(grace: nat) returns (events: seq<Event>)
    ensures AttachesAreExpected(events, grace) && !SourceIsOwned(Run(events, grace))
  {
    hide Run;
    var e1 := [] + [AddClient(0)];
    var e2 := e1 + [MarkStopped];
    var e3 := e2 + [AddClient(1)];
    var e4 := e3 + [Attach];
    events := e4 + [StartRejected];
    NothingRun(grace);
    Extends([], AddClient(0), grace);
    Extends(e1, MarkStopped, grace);
    Extends(e2, AddClient(1), grace);
    Extends(e3, Attach, grace);
    Extends(e4, StartRejected, grace);
    assert Run(e3, grace).state == Starting;
    assert events[..3] == e3;
  }

  // Recordings

  /** One recording, as its flags, its timers and the chunk log must agree. */
  ghost predicate RecordingFits(r: Recording, active: bool, delivered: seq<bytes>) {
    && r.from <= r.until <= |delivered|
    && r.chunks == delivered[r.from..r.until]
    && r.size == |Flatten(r.chunks)|
    && (r.started <==> r.chunks != [])
    && r.calls == (if active then 0 else 1)
    && (if active then
          && r.until == |delivered| && r.outcome.None? && r.size <= MAX_RECORDING_BYTES
          && r.startTimer.Some? == !r.started && r.durationTimer.Some? == r.started
        else
          && r.startTimer.None? && r.durationTimer.None? && r.outcome.Some?)
    && (r.outcome.Some? && r.outcome.value.Resolved? ==>
          r.outcome.value.data == Flatten(r.chunks) && r.chunks != [] && r.size <= MAX_RECORDING_BYTES)
  }

  ghost predicate RecordingsFit(s: State) {
    && s.active <= s.recordings.Keys
    && forall id :: id in s.recordings ==> RecordingFits(s.recordings[id], id in s.active, s.delivered)
  }

  lemma SettleFits(r: Recording, outcome: Outcome, delivered: seq<bytes>)
    requires RecordingFits(r, true, delivered)
    requires outcome.Resolved? ==> r.started && outcome.data == Flatten(r.chunks)
    ensures RecordingFits(Settle(r, outcome), false, delivered)
  {
  }

  lemma SettleOneFits(s: State, id: nat, outcome: Outcome)
    requires RecordingsFit(s)
    requires outcome.Resolved? && id in s.active ==>
               s.recordings[id].started && outcome.data == Flatten(s.recordings[id].chunks)
    ensures RecordingsFit(SettleOne(s, id, outcome))
  {
    hide RecordingFits, Settle;
    if id in s.active {
      SettleFits(s.recordings[id], outcome, s.delivered);
    }
  }

  lemma FailRecordingsFits(s: State)
    requires RecordingsFit(s)
    ensures RecordingsFit(FailRecordings(s))
  {
    hide RecordingFits, Settle;
    forall id | id in s.active {
      SettleFits(s.recordings[id], Rejected, s.delivered);
    }
  }

  lemma AppendFits(r: Recording, chunk: bytes, now: nat, delivered: seq<bytes>)
    requires RecordingFits(r, true, delivered)
    ensures RecordingFits(AppendOrFail(r, chunk, now), r.size + |chunk| <= MAX_RECORDING_BYTES, delivered + [chunk])
  {
    FlattenAppend(r.chunks, chunk);
    assert (delivered + [chunk])[r.from..r.until + 1] == delivered[r.from..r.until] + [chunk];
  }

  /** Recordings that are settled do not follow the log. */
  lemma SettledFits(r: Recording, chunk: bytes, delivered: seq<bytes>)
    requires RecordingFits(r, false, delivered)
    ensures RecordingFits(r, false, delivered + [chunk])
  {
    assert (delivered + [chunk])[r.from..r.until] == delivered[r.from..r.until];
  }

  lemma DeliverFits(s: State, chunk: bytes)
    requires RecordingsFit(s)
    ensures RecordingsFit(Deliver(s, chunk))
  {
    hide RecordingFits, AppendOrFail;
    var t := Deliver(s, chunk);
    forall id | id in s.recordings
      ensures RecordingFits(t.recordings[id], id in t.active, t.delivered)
    {
      if id in s.active {
        AppendFits(s.recordings[id], chunk, s.now, s.delivered);
      } else {
        SettledFits(s.recordings[id], chunk, s.delivered);
      }
    }
  }

  lemma NewRecordingFits(s: State, id: nat, duration: nat, startTimeout: nat)
    requires RecordingsFit(s) && id !in s.recordings
    ensures RecordingsFit(NewRecording(s, id, duration, startTimeout))
  {
    var t := NewRecording(s, id, duration, startTimeout);
    assert RecordingFits(t.recordings[id], true, s.delivered);
    hide RecordingFits;
  }

  lemma ArmedRecordingIsActive(s: State, id: nat)
    requires RecordingsFit(s) && id in s.recordings
    ensures s.recordings[id].startTimer.Some? || s.recordings[id].durationTimer.Some? ==> id in s.active
    ensures id in s.active && s.recordings[id].durationTimer.Some? ==> s.recordings[id].started
  {
  }

  lemma {:induction false} StepKeepsRecordings(s: State, e: Event, grace: nat)
    requires RecordingsFit(s)
    ensures RecordingsFit(Step(s, e, grace))
  {
    hide FailRecordings, Deliver, SettleOne, NewRecording, RecordingFits;
    hide UpdateState, ScheduleStopIfUnused, EnsureStarted, Acquire;
    if !TouchesRecordings(e) {
      OthersTouchNothing(s, e, grace);
      return;
    }
    match e
    case BeginRecording(id, duration, startTimeout) =>
      if id !in s.recordings {
        NewRecordingFits(Acquire(s, id), id, duration, startTimeout);
      }
    case Finish(id) => SettleOneFits(s, id, Cancelled);
    case Chunk(chunk) => DeliverFits(s, chunk);
    case SourceEnded(_) => FailRecordingsFits(s);
    case MarkStopped => FailRecordingsFits(s);
    case Close => FailRecordingsFits(s);
    case StartTimerFires(id) => SettleOneFits(s, id, Rejected);
    case DurationTimerFires(id) =>
      if id in s.recordings && s.recordings[id].durationTimer.Some? {
        ArmedRecordingIsActive(s, id);
        SettleOneFits(s, id, Resolved(Flatten(s.recordings[id].chunks)));
      }
    case _ =>
  }

  lemma {:induction false} RunKeepsRecordings(events: seq<Event>, grace: nat)
    ensures RecordingsFit(Run(events, grace))
  {
    hide Step;
    if events == [] {
    } else {
      RunKeepsRecordings(events[..|events| - 1], grace);
      StepKeepsRecordings(Run(events[..|events| - 1], grace), events[|events| - 1], grace);
    }
  }

  /**
   * In every run a recording is settled or cancelled at most once; a resolved
   * one holds the chunks the source delivered since it was registered, in
   * order and without a gap, at least one of them and at most 256 MiB; once it
   * left the set, none of its timers is armed.
   */
  lemma {:induction false} RecordingSettlesOnce(events: seq<Event>, grace: nat, id: nat)
    requires id in Run(events, grace).recordings
    ensures var s := Run(events, grace);
            var r := s.recordings[id];
            && r.calls == (if id in s.active then 0 else 1)
            && (id !in s.active ==> r.startTimer.None? && r.durationTimer.None?)
            && (r.outcome.Some? && r.outcome.value.Resolved? ==>
                  && r.from < r.until <= |s.delivered|
                  && r.outcome.value.data == Flatten(s.delivered[r.from..r.until])
                  && |r.outcome.value.data| <= 256 * 1024 * 1024)
  {
    RunKeepsRecordings(events, grace);
  }

  /** How one step may change a recording: a settled one not at all. */
  ghost predicate Follows(s: State, t: State, id: nat)
    requires id in s.recordings
  {
    && id in t.recordings
    && t.recordings[id].from == s.recordings[id].from
    && (id !in s.active ==> t.recordings[id] == s.recordings[id] && id !in t.active)
  }

  /** In one step a recording of the set gets exactly the chunks that are delivered. */
  ghost predicate KeepsUp(s: State, t: State, id: nat)
    requires id in s.recordings && id in t.recordings
  {
    id in s.active ==> |t.delivered| - t.recordings[id].until == |s.delivered| - s.recordings[id].until
  }

  lemma SettleFollows(s: State, id: nat, other: nat, outcome: Outcome)
    requires id in s.recordings
    ensures Follows(s, SettleOne(s, other, outcome), id) && KeepsUp(s, SettleOne(s, other, outcome), id)
  {
  }

  lemma FailFollows(s: State, id: nat)
    requires id in s.recordings
    ensures Follows(s, FailRecordings(s), id) && KeepsUp(s, FailRecordings(s), id)
  {
  }

  lemma DeliverFollows(s: State, id: nat, chunk: bytes)
    requires id in s.recordings
    ensures Follows(s, Deliver(s, chunk), id) && KeepsUp(s, Deliver(s, chunk), id)
  {
  }

  lemma NewRecordingFollows(s: State, id: nat, other: nat, duration: nat, startTimeout: nat)
    requires id in s.recordings && other !in s.recordings
    ensures var t := NewRecording(s, other, duration, startTimeout); Follows(s, t, id) && KeepsUp(s, t, id)
  {
  }

  /** Only these steps touch a recording. */
  predicate TouchesRecordings(e: Event) {
    e.BeginRecording? || e.Finish? || e.Chunk? || e.SourceEnded? || e.MarkStopped? || e.Close?
    || e.StartTimerFires? || e.DurationTimerFires?
  }

  lemma OthersTouchNothing(s: State, e: Event, grace: nat)
    requires !TouchesRecordings(e)
    ensures KeepsRecordings(s, Step(s, e, grace))
  {
    hide Count, UpdateState, ScheduleStopIfUnused, EnsureStarted, Acquire;
  }

  lemma EndingFollows(s: State, e: Event, grace: nat, id: nat)
    requires id in s.recordings && (e.SourceEnded? || e.MarkStopped? || e.Close?)
    ensures Follows(s, Step(s, e, grace), id) && KeepsUp(s, Step(s, e, grace), id)
  {
    hide FailRecordings, Count;
    FailFollows(s, id);
  }

  lemma StepFollows(s: State, e: Event, grace: nat, id: nat)
    requires id in s.recordings
    ensures Follows(s, Step(s, e, grace), id) && KeepsUp(s, Step(s, e, grace), id)
  {
    if !TouchesRecordings(e) {
      OthersTouchNothing(s, e, grace);
    } else {
      hide FailRecordings, EndSource, Deliver, SettleOne, NewRecording;
      hide UpdateState, ScheduleStopIfUnused, EnsureStarted, Acquire;
      match e
      case BeginRecording(other, duration, startTimeout) =>
        if other !in s.recordings {
          NewRecordingFollows(Acquire(s, other), id, other, duration, startTimeout);
        }
      case Finish(other) => SettleFollows(s, id, other, Cancelled);
      case Chunk(chunk) => DeliverFollows(s, id, chunk);
      case StartTimerFires(other) => SettleFollows(s, id, other, Rejected);
      case DurationTimerFires(other) =>
        if other in s.recordings {
          SettleFollows(s, id, other, Resolved(Flatten(s.recordings[other].chunks)));
        }
      case _ => EndingFollows(s, e, grace, id);
    }
  }

  /** While a recording is in the set it has every chunk so far; settled, it never changes again. */
  lemma {:induction false} RecordingIsUpToDate(events: seq<Event>, e: Event, grace: nat, id: nat)
    requires id in Run(events, grace).recordings
    ensures var s := Run(events, grace);
            var r := s.recordings[id];
            && r.from <= |s.delivered|
            && (id in s.active ==> r.chunks == s.delivered[r.from..])
            && Follows(s, Run(events + [e], grace), id)
  {
    hide Step, Run;
    Extends(events, e, grace);
    RunKeepsRecordings(events, grace);
    StepFollows(Run(events, grace), e, grace, id);
  }

  /** A recording leaves the set with every chunk delivered until then. */
  lemma StepEndsUpToDate(s: State, e: Event, grace: nat, id: nat)
    requires RecordingsFit(s) && id in s.active
    ensures var t := Step(s, e, grace);
            id in t.recordings && t.recordings[id].until == |t.delivered|
  {
    hide Step;
    assert RecordingFits(s.recordings[id], true, s.delivered);
    StepFollows(s, e, grace, id);
  }

  /** However a run goes on, a recording keeps its start, and a settled one everything. */
  lemma {:induction false} RunFollows(events: seq<Event>, more: seq<Event>, grace: nat, id: nat)
    requires id in Run(events, grace).recordings
    ensures Follows(Run(events, grace), Run(events + more, grace), id)
  {
    hide Step, Run;
    if more == [] {
      assert events + more == events;
    } else {
      var before, last := more[..|more| - 1], more[|more| - 1];
      assert events + more == (events + before) + [last];
      RunFollows(events, before, grace, id);
      Extends(events + before, last, grace);
      StepFollows(Run(events + before, grace), last, grace, id);
    }
  }

  lemma RegistersNow(before: seq<Event>, begin: Event, grace: nat)
    requires begin.BeginRecording?
    requires begin.id !in Run(before, grace).operations && begin.id !in Run(before, grace).recordings
    ensures var t := Run(before + [begin], grace);
            begin.id in t.recordings && t.recordings[begin.id].from == |Run(before, grace).delivered|
  {
    hide Run;
    Extends(before, begin, grace);
  }

  /**
   * What a recording resolves to: for a run that registers it, goes on in any
   * way, settles it and goes on in any way, the result is the concatenation
   * of exactly the chunks delivered between registration and settling.
   */
  lemma ResolvesToEverythingBetween(before: seq<Event>, begin: Event, middle: seq<Event>, settling: Event,
                                    more: seq<Event>, grace: nat)
    requires begin.BeginRecording?
    requires begin.id !in Run(before, grace).operations && begin.id !in Run(before, grace).recordings
    requires begin.id in Run(before + [begin] + middle, grace).active
    requires begin.id !in Run(before + [begin] + middle + [settling], grace).active
    ensures var settled := before + [begin] + middle + [settling];
            var end := Run(settled + more, grace);
            && begin.id in end.recordings
            && var r := end.recordings[begin.id];
               && r.calls == 1 && r.outcome.Some?
               && (r.outcome.value.Resolved? ==>
                     && |Run(before, grace).delivered| <= |Run(settled, grace).delivered|
                     && r.outcome.value.data ==
                        Flatten(Run(settled, grace).delivered[|Run(before, grace).delivered|..]))
  {
    hide Run, Step, Flatten;
    var id, open := begin.id, before + [begin] + middle;
    var settled := open + [settling];
    RegistersNow(before, begin, grace);
    RunFollows(before + [begin], middle, grace, id);
    RunKeepsRecordings(open, grace);
    Extends(open, settling, grace);
    StepEndsUpToDate(Run(open, grace), settling, grace, id);
    RunKeepsRecordings(settled, grace);
    StepFollows(Run(open, grace), settling, grace, id);
    RunFollows(settled, more, grace, id);
    var t := Run(settled, grace);
    assert RecordingFits(t.recordings[id], false, t.delivered);
    assert t.delivered[t.recordings[id].from..t.recordings[id].until] == t.delivered[t.recordings[id].from..];
  }

  // Times, from the events alone

  /** The time that passed in a run. */
  function Elapsed(events: seq<Event>): nat {
    if events == [] then 0
    else Elapsed(events[..|events| - 1]) +
         if events[|events| - 1].Tick? then events[|events| - 1].milliseconds else 0
  }

  lemma {:induction false} NowIsElapsed(events: seq<Event>, grace: nat)
    ensures Run(events, grace).now == Elapsed(events)
  {
    hide Step;
    if events == [] {
    } else {
      NowIsElapsed(events[..|events| - 1], grace);
      StepOnNow(Run(events[..|events| - 1], grace), events[|events| - 1], grace);
    }
  }

  lemma StepOnNow(s: State, e: Event, grace: nat)
    ensures Step(s, e, grace).now == s.now + if e.Tick? then e.milliseconds else 0
  {
    hide Deliver, NewRecording, SettleOne, FailRecordings, Count;
  }

  /** When each chunk came that an attached source delivered. */
  function DeliveredAt(events: seq<Event>, grace: nat): seq<nat> {
    if events == [] then []
    else
      var before, e := events[..|events| - 1], events[|events| - 1];
      DeliveredAt(before, grace) + if e.Chunk? && Run(before, grace).source then [Elapsed(before)] else []
  }

  lemma {:induction false} ChunksHaveTimes(events: seq<Event>, grace: nat)
    ensures |DeliveredAt(events, grace)| == |Run(events, grace).delivered|
  {
    hide Step;
    if events == [] {
    } else {
      ChunksHaveTimes(events[..|events| - 1], grace);
      StepOnLog(Run(events[..|events| - 1], grace), events[|events| - 1], grace);
    }
  }

  lemma StepOnLog(s: State, e: Event, grace: nat)
    ensures Step(s, e, grace).delivered == s.delivered + if e.Chunk? && s.source then [e.chunk] else []
  {
    hide AppendOrFail, Settle, Count;
  }

  /** When a recording was registered, before which chunk, and what was asked for. */
  datatype Registered = Registered(at: nat, index: nat, duration: nat, startTimeout: nat)

  function Registration(events: seq<Event>, grace: nat, id: nat): Option<Registered> {
    if events == [] then None
    else
      var before, e := events[..|events| - 1], events[|events| - 1];
      if Registration(before, grace, id).Some? then Registration(before, grace, id)
      else if e.BeginRecording? && e.id == id && id !in Run(before, grace).operations then
        Some(Registered(Elapsed(before), |DeliveredAt(before, grace)|, e.duration, e.startTimeout))
      else None
  }

  /** What one step does to the timers of a recording that stays in the set. */
  lemma StepOnTimers(s: State, e: Event, grace: nat, id: nat)
    requires id in s.recordings
    ensures var t := Step(s, e, grace);
            && id in t.recordings
            && t.recordings[id].from == s.recordings[id].from
            && t.recordings[id].duration == s.recordings[id].duration
            && (id in t.active ==>
                  && id in s.active
                  && var r := s.recordings[id];
                     if e.Chunk? && s.source && !r.started then
                       t.recordings[id].startTimer.None? && t.recordings[id].durationTimer == Some(s.now + r.duration)
                     else
                       t.recordings[id].startTimer == r.startTimer && t.recordings[id].durationTimer == r.durationTimer)
  {
    StepFollows(s, e, grace, id);
    if !TouchesRecordings(e) {
      OthersTouchNothing(s, e, grace);
    } else {
      hide EndSource, UpdateState, ScheduleStopIfUnused, EnsureStarted, Acquire, Count, Flatten;
      EndingEmpties(s, e, grace);
    }
  }

  lemma EndingEmpties(s: State, e: Event, grace: nat)
    ensures e.MarkStopped? || (e.SourceEnded? && s.state != Idle) || (e.Close? && !s.closed) ==>
              Step(s, e, grace).active == {}
              && Step(s, e, grace).recordings == FailRecordings(s).recordings
    ensures (e.SourceEnded? && s.state == Idle) || (e.Close? && s.closed) ==> Step(s, e, grace) == s
  {
    hide Count, Settle;
  }

  lemma OnlyBeginRegisters(s: State, e: Event, grace: nat, id: nat)
    requires id !in s.recordings && id in Step(s, e, grace).recordings
    ensures e.BeginRecording? && e.id == id && id !in s.operations
  {
    hide UpdateState, ScheduleStopIfUnused, EnsureStarted, Acquire, Count, Settle, AppendOrFail, Flatten;
  }

  lemma BeginGives(s: State, e: Event, grace: nat)
    requires e.BeginRecording? && e.id !in s.operations && e.id !in s.recordings
    ensures e.id in Step(s, e, grace).recordings
    ensures Step(s, e, grace).recordings[e.id] ==
            Recording([], 0, e.duration, false, Some(s.now + e.startTimeout), None,
                      |s.delivered|, |s.delivered|, 0, None)
  {
    hide ScheduleStopIfUnused, Count;
  }

  /** What one step gives a recording it registers. */
  lemma NewTimers(s: State, e: Event, grace: nat, id: nat)
    requires id !in s.recordings && id in Step(s, e, grace).recordings
    ensures e.BeginRecording? && e.id == id && id !in s.operations
    ensures var r := Step(s, e, grace).recordings[id];
            && r.startTimer == Some(s.now + e.startTimeout) && r.durationTimer.None?
            && r.from == |s.delivered| && r.duration == e.duration && !r.started
  {
    hide Step;
    OnlyBeginRegisters(s, e, grace, id);
    BeginGives(s, e, grace);
  }

  lemma Registers(s: State, e: Event, grace: nat)
    requires e.BeginRecording? && e.id !in s.operations
    ensures e.id in Step(s, e, grace).recordings
  {
    hide UpdateState, ScheduleStopIfUnused, EnsureStarted, Acquire, Count;
  }

  /** A registered recording exists, and no other does. */
  lemma {:induction false} RegisteredExist(events: seq<Event>, grace: nat, id: nat)
    ensures Registration(events, grace, id).Some? <==> id in Run(events, grace).recordings
  {
    hide Step;
    if events == [] {
      NothingRun(grace);
    } else {
      var before, e := events[..|events| - 1], events[|events| - 1];
      var s := Run(before, grace);
      RegisteredExist(before, grace, id);
      if id in s.recordings {
        StepFollows(s, e, grace, id);
      } else {
        if e.BeginRecording? && e.id == id && id !in s.operations {
          Registers(s, e, grace);
        }
        if id in Step(s, e, grace).recordings {
          NewTimers(s, e, grace, id);
        }
      }
    }
  }

  /**
   * A recording in the set has exactly one timer armed. Before its first chunk
   * that is the start timer, due at its registration plus the start timeout;
   * from then on the duration timer, due at the first chunk plus the duration.
   */
  ghost predicate TimersAreExact(events: seq<Event>, grace: nat, id: nat) {
    var s := Run(events, grace);
    id in s.recordings && Registration(events, grace, id).Some? &&
    var r, reg, times := s.recordings[id], Registration(events, grace, id).value, DeliveredAt(events, grace);
    && r.from == reg.index && r.duration == reg.duration && reg.index <= |times|
    && (id in s.active ==>
          if |times| == reg.index then
            r.startTimer == Some(reg.at + reg.startTimeout) && r.durationTimer.None?
          else
            r.startTimer.None? && r.durationTimer == Some(times[reg.index] + reg.duration))
  }

  lemma {:induction false} RecordingTimers(events: seq<Event>, grace: nat, id: nat)
    requires id in Run(events, grace).recordings
    ensures TimersAreExact(events, grace, id)
  {
    RegisteredExist(events, grace, id);
    hide Step, RecordingFits;
    var before, e := events[..|events| - 1], events[|events| - 1];
    var s, t := Run(before, grace), Run(events, grace);
    RegisteredExist(before, grace, id);
    NowIsElapsed(before, grace);
    ChunksHaveTimes(before, grace);
    ChunksHaveTimes(events, grace);
    StepOnLog(s, e, grace);
    if id in s.recordings {
      RecordingTimers(before, grace, id);
      StepOnTimers(s, e, grace, id);
      RunKeepsRecordings(before, grace);
      StartedWithFirst(s, id);
    } else {
      NewTimers(s, e, grace, id);
    }
  }

  /** A recording in the set has started exactly if something was delivered since its registration. */
  lemma StartedWithFirst(s: State, id: nat)
    requires RecordingsFit(s) && id in s.recordings
    ensures id in s.active ==> (s.recordings[id].started <==> s.recordings[id].from < |s.delivered|)
  {
    assert RecordingFits(s.recordings[id], id in s.active, s.delivered);
  }

  /** Which step settles a recording, and how. */
  lemma SettlingStep(s: State, e: Event, grace: nat, id: nat)
    requires RecordingsFit(s) && id in s.active && id !in Step(s, e, grace).active
    ensures id in Step(s, e, grace).recordings && Step(s, e, grace).recordings[id].outcome.Some?
    ensures match Step(s, e, grace).recordings[id].outcome.value
            case Resolved(_) =>
              && e == DurationTimerFires(id)
              && s.recordings[id].durationTimer.Some? && s.recordings[id].durationTimer.value <= s.now
            case Cancelled => e == Finish(id)
            case Rejected =>
              || (e.Chunk? && s.recordings[id].size + |e.chunk| > 268435456)
              || e.SourceEnded? || e.MarkStopped? || e.Close?
              || (&& e == StartTimerFires(id)
                  && s.recordings[id].startTimer.Some? && s.recordings[id].startTimer.value <= s.now)
  {
    hide UpdateState, ScheduleStopIfUnused, EnsureStarted, Acquire, Count, RecordingFits, EndSource;
    EndingEmpties(s, e, grace);
    if !TouchesRecordings(e) {
      OthersTouchNothing(s, e, grace);
    }
  }

  /**
   * No recording resolves early, and none is given up early for want of video:
   * it resolves only when its duration has passed since the first chunk, and
   * its start timer rejects it only when the start timeout has passed since
   * its registration and nothing was delivered.
   */
  lemma {:induction false} SettlesInTime(events: seq<Event>, e: Event, grace: nat, id: nat)
    requires id in Run(events, grace).active && id !in Run(events + [e], grace).active
    ensures Registration(events, grace, id).Some? && id in Run(events + [e], grace).recordings
    ensures var reg, times := Registration(events, grace, id).value, DeliveredAt(events, grace);
            var outcome := Run(events + [e], grace).recordings[id].outcome;
            && reg.index <= |times|
            && (outcome.Some? && outcome.value.Resolved? ==>
                  && e == DurationTimerFires(id)
                  && reg.index < |times| && times[reg.index] + reg.duration <= Elapsed(events))
            && (e == StartTimerFires(id) ==>
                  && outcome == Some(Rejected)
                  && reg.index == |times| && reg.at + reg.startTimeout <= Elapsed(events))
  {
    hide Step, RecordingFits;
    Extends(events, e, grace);
    RunKeepsRecordings(events, grace);
    assert id in Run(events, grace).recordings;
    RecordingTimers(events, grace, id);
    NowIsElapsed(events, grace);
    SettlingStep(Run(events, grace), e, grace, id);
  }

  /** In every run a resolved recording was resolved by its duration timer, its duration after its first chunk. */
  lemma {:induction false} ResolvedTookItsTime(events: seq<Event>, grace: nat, id: nat) returns (n: nat)
    requires id in Run(events, grace).recordings && Run(events, grace).recordings[id].outcome.Some?
    requires Run(events, grace).recordings[id].outcome.value.Resolved?
    ensures n < |events| && events[n] == DurationTimerFires(id)
    ensures Registration(events[..n], grace, id).Some?
    ensures var reg, times := Registration(events[..n], grace, id).value, DeliveredAt(events[..n], grace);
            reg.index < |times| && times[reg.index] + reg.duration <= Elapsed(events[..n])
  {
    hide Step, RecordingFits;
    assert events != [];
    var before, e := events[..|events| - 1], events[|events| - 1];
    assert before + [e] == events;
    var s, t := Run(before, grace), Run(events, grace);
    RunKeepsRecordings(events, grace);
    RunKeepsRecordings(before, grace);
    ActiveHasNoOutcome(s, id);
    ActiveHasNoOutcome(t, id);
    if id in s.active {
      n := |events| - 1;
      SettlesInTime(before, e, grace, id);
    } else if id in s.recordings {
      StepFollows(s, e, grace, id);
      n := ResolvedTookItsTime(before, grace, id);
      assert before[..n] == events[..n];
    } else {
      NewTimers(s, e, grace, id);
      NewIsActive(s, e, grace, id);
    }
  }

  lemma ActiveHasNoOutcome(s: State, id: nat)
    requires RecordingsFit(s)
    ensures id in s.active ==> id in s.recordings && s.recordings[id].outcome.None?
  {
    assert id in s.active ==> RecordingFits(s.recordings[id], true, s.delivered);
  }

  lemma NewIsActive(s: State, e: Event, grace: nat, id: nat)
    requires id !in s.recordings && e.BeginRecording? && e.id == id && id !in s.operations
    ensures id in Step(s, e, grace).active
  {
    hide UpdateState, ScheduleStopIfUnused, EnsureStarted, Acquire, Count;
  }

  // The grace timer

  /** When the grace timer was last armed. */
  function ArmedSince(events: seq<Event>, grace: nat): nat {
    if events == [] then 0
    else
      var before := events[..|events| - 1];
      if Run(events, grace).stopTimer.Armed? && !Run(before, grace).stopTimer.Armed? then Elapsed(before)
      else ArmedSince(before, grace)
  }

  /** The grace timer is armed by a viewer or an operation that leaves, and stays as it was armed. */
  lemma StepOnStopTimer(s: State, e: Event, grace: nat)
    requires Step(s, e, grace).stopTimer.Armed?
    ensures if s.stopTimer.Armed? then Step(s, e, grace).stopTimer == s.stopTimer
            else (e.ClientClosed? || e.Finish?) && Step(s, e, grace).stopTimer.due == s.now + grace
  {
    hide Deliver, NewRecording, FailRecordings, Count;
  }

  /** An armed grace timer is due exactly the grace period after it was armed. */
  lemma {:induction false} GraceIsExact(events: seq<Event>, grace: nat)
    ensures var s := Run(events, grace);
            s.stopTimer.Armed? ==> s.stopTimer.due == ArmedSince(events, grace) + grace
  {
    hide Step;
    if events == [] {
    } else {
      var before := events[..|events| - 1];
      GraceIsExact(before, grace);
      NowIsElapsed(before, grace);
      if Run(events, grace).stopTimer.Armed? {
        StepOnStopTimer(Run(before, grace), events[|events| - 1], grace);
      }
    }
  }
}
