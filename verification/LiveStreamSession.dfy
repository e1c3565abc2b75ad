/** The manager's methods on one session's fields. Each is a step of the session's run, and keeps what runs keep. */
module LiveStreamSession {
  import opened Bytes
  import opened LiveStream

  /** What every run keeps, with the events that led here. */
  ghost predicate RunKeeps(s: State, events: seq<Event>, grace: nat) {
    && s.leases == |s.operations|
    && s.published == (s.state, |s.clients|)
    && (s.stopTimer.Armed? ==> !s.closed && s.clients == {} && s.operations == {})
    && (AttachesAreSafe(events, grace) ==> NoOrphan(s))
    && (OwnershipIsKept(events, grace) ==> SourceIsOwned(s))
    && s.active <= s.recordings.Keys
    && (forall id :: id in s.recordings ==> SettlesOnce(s, id))
    && (forall id :: id in s.recordings ==> TimersAreExact(events, grace, id))
    && (s.stopTimer.Armed? ==> s.stopTimer.due == ArmedSince(events, grace) + grace)
    && s.now == Elapsed(events)
  }

  /** At most one settlement; none and every chunk so far in the set, exact bytes and no timer out of it. */
  ghost predicate SettlesOnce(s: State, id: nat)
    requires id in s.recordings
  {
    var r := s.recordings[id];
    && r.from <= r.until <= |s.delivered|
    && r.calls == (if id in s.active then 0 else 1)
    && (id in s.active ==> r.chunks == s.delivered[r.from..])
    && (id !in s.active ==> r.startTimer.None? && r.durationTimer.None?)
    && (r.outcome.Some? && r.outcome.value.Resolved? ==>
          && r.outcome.value.data == Flatten(s.delivered[r.from..r.until])
          && 0 < r.until - r.from && |r.outcome.value.data| <= 256 * 1024 * 1024)
  }

  lemma FitsSettlesOnce(s: State, id: nat)
    requires RecordingsFit(s) && id in s.recordings
    ensures SettlesOnce(s, id)
  {
    assert RecordingFits(s.recordings[id], id in s.active, s.delivered);
    hide Flatten;
  }

  lemma {:induction false} RunsKeep(events: seq<Event>, grace: nat)
    ensures RunKeeps(Run(events, grace), events, grace)
  {
    hide Run, AttachesAreSafe, OwnershipIsKept, RecordingFits, SettlesOnce, NoOrphan, SourceIsOwned, TimersAreExact;
    var s := Run(events, grace);
    RunIsAccounted(events, grace);
    NeverOrphanedIff(events, grace);
    AlwaysOwnedIff(events, grace);
    assert events[..|events|] == events;
    RunKeepsRecordings(events, grace);
    forall id | id in s.recordings ensures SettlesOnce(s, id) {
      FitsSettlesOnce(s, id);
    }
    forall id | id in s.recordings ensures TimersAreExact(events, grace, id) {
      RecordingTimers(events, grace, id);
    }
    GraceIsExact(events, grace);
    NowIsElapsed(events, grace);
  }

  /** A recording that was settled: with this outcome, once more than before, and no timer. */
  ghost function Ended(r: Recording, outcome: Outcome): Recording {
    r.(startTimer := None, durationTimer := None, calls := r.calls + 1, outcome := Some(outcome))
  }

  /** A recording that got a chunk: the first one arms the duration timer, and more than 256 MiB reject it. */
  ghost predicate Grew(was: Recording, r: Recording, chunk: bytes, now: nat) {
    if was.size + |chunk| <= 256 * 1024 * 1024 then
      r == was.(chunks := was.chunks + [chunk], size := was.size + |chunk|, until := was.until + 1,
                started := true, startTimer := if was.started then was.startTimer else None,
                durationTimer := if was.started then was.durationTimer else Some(now + was.duration))
    else r.outcome == Some(Rejected) && r.startTimer.None? && r.durationTimer.None?
  }

  /** How `recordClip` begins. */
  datatype Begun = BadDuration | StartThrows | Began

  class CameraSession {
    const grace: nat
    var clients: set<nat>
    var active: set<nat>
    var state: StreamState
    var source: bool
    var stopTimer: StopTimer
    var owned: bool
    var leases: int
    var closed: bool
    var now: nat
    var recordings: map<nat, Recording>
    var published: (StreamState, nat)
    /** History: the operations in flight, every chunk the sources delivered, and every step taken. */
    var operations: set<nat>
    var delivered: seq<bytes>
    ghost var log: seq<Event>

    ghost function View(): State
      reads this
    {
      State(clients, active, state, source, stopTimer, owned, leases, closed, now,
            recordings, operations, delivered, published)
    }

    /** The session is where the run of its steps ends. */
    ghost predicate Valid()
      reads this
    {
      View() == Run(log, grace)
    }

    /** What that means for it. */
    ghost predicate Kept()
      reads this
    {
      RunKeeps(View(), log, grace)
    }

    constructor (grace: nat)
      ensures Valid() && Kept() && this.grace == grace && log == []
    {
      this.grace := grace;
      clients, active, state, source, stopTimer, owned := {}, {}, Idle, false, NoTimer, false;
      leases, closed, now, recordings, published := 0, false, 0, map[], (Idle, 0);
      operations, delivered, log := {}, [], [];
      new;
      NothingRun(grace);
      RunsKeep([], grace);
    }

    /** Note a step that was taken. */
    ghost method Took(e: Event)
      requires View() == Step(Run(log, grace), e, grace)
      modifies this`log
      ensures Valid() && Kept() && log == old(log) + [e]
    {
      hide Run, Step, RunKeeps;
      Extends(log, e, grace);
      RunsKeep(log + [e], grace);
      log := log + [e];
    }

    method Publish()
      modifies this`published
      ensures View() == UpdateState(old(View()))
    {
      published := (state, Count(clients));
    }

    method CancelStopTimer()
      modifies this`stopTimer
      ensures View() == CancelStop(old(View()))
    {
      if stopTimer == NoTimer {
        return;
      }
      stopTimer := NoTimer;
    }

    method Schedule()
      modifies this`stopTimer
      ensures View() == ScheduleStopIfUnused(old(View()), grace)
    {
      if closed {
        return;
      }
      if |clients| == 0 && leases == 0 && owned && stopTimer == NoTimer {
        stopTimer := Armed(now + grace);
      }
    }

    method EnsureStart()
      modifies this`state, this`owned, this`published
      ensures View() == EnsureStarted(old(View()))
    {
      if closed {
        return;
      }
      if state != Idle && state != Error {
        return;
      }
      state := Starting;
      owned := true;
      Publish();
    }

    /** Time passes; timers that become due may fire from then on. */
    method ClockAdvances(milliseconds: nat)
      requires Valid()
      modifies this
      ensures Valid() && Kept() && log == old(log) + [Tick(milliseconds)]
      ensures View() == old(View()).(now := old(now) + milliseconds)
    {
      hide Run, Kept;
      now := now + milliseconds;
      Took(Tick(milliseconds));
    }

    /** `addClient` up to its await, and whether the start throws and the response is destroyed. */
    method AddViewer(client: nat) returns (destroyed: bool)
      requires Valid()
      modifies this
      ensures Valid() && Kept() && log == old(log) + [AddClient(client)]
      ensures var starts := !old(closed) && (old(state) == Idle || old(state) == Error);
              View() == old(View()).(
                clients := old(clients) + {client}, stopTimer := NoTimer,
                state := if starts then Starting else old(state), owned := old(owned) || starts,
                published := (state, |clients|))
      ensures destroyed == old(closed)
      ensures client in clients && !stopTimer.Armed?
      ensures !closed && (old(state) == Idle || old(state) == Error) ==> state == Starting && owned
    {
      hide Run, Kept, RunKeeps;
      CancelStopTimer();
      clients := clients + {client};
      Publish();
      EnsureStart();
      destroyed := closed;
      Took(AddClient(client));
    }

    method RemoveClient(client: nat)
      requires Valid()
      modifies this
      ensures Valid() && Kept() && log == old(log) + [ClientClosed(client)]
      ensures var unused := !old(closed) && clients == {} && old(leases) == 0 && old(owned)
                            && old(stopTimer) == NoTimer;
              View() == old(View()).(
                clients := old(clients) - {client}, published := (old(state), |clients|),
                stopTimer := if unused then Armed(old(now) + grace) else old(stopTimer))
      ensures client !in clients
    {
      hide Run, Kept, RunKeeps;
      clients := clients - {client};
      Publish();
      Schedule();
      Took(ClientClosed(client));
    }

    /** `captureSnapshot` up to its first await; a closed gateway refuses before taking a lease. */
    method StartCapture(id: nat) returns (refused: bool)
      requires Valid() && id !in operations && id !in recordings
      modifies this
      ensures Valid() && Kept() && log == old(log) + [BeginCapture(id)]
      ensures var starts := old(state) == Idle || old(state) == Error;
              View() == if old(closed) then old(View()) else old(View()).(
                stopTimer := NoTimer, leases := old(leases) + 1, operations := old(operations) + {id},
                state := if starts then Starting else old(state), owned := old(owned) || starts,
                published := (state, |clients|))
      ensures refused == old(closed)
      ensures leases == if refused then old(leases) else old(leases) + 1
    {
      hide Run, Kept, RunKeeps;
      if closed {
        Took(BeginCapture(id));
        return true;
      }
      Lease(id);
      EnsureStart();
      Took(BeginCapture(id));
      refused := false;
    }

    /**
     * `recordClip` up to its first await. A bad duration is refused before
     * anything is touched; on a closed gateway only the start throws.
     */
    method StartRecording(id: nat, durationSeconds: int, startTimeout: nat) returns (begun: Begun)
      requires Valid() && id !in operations && id !in recordings
      modifies this
      ensures Valid() && Kept()
      ensures begun.BadDuration? <==> durationSeconds < 1 || durationSeconds > 120
      ensures var starts := !old(closed) && (old(state) == Idle || old(state) == Error);
              !begun.BadDuration? ==>
                View() == old(View()).(
                  stopTimer := NoTimer, leases := old(leases) + 1, operations := old(operations) + {id},
                  active := old(active) + {id},
                  recordings := old(recordings)[id :=
                    Recording([], 0, durationSeconds * 1_000, false, Some(old(now) + startTimeout), None,
                              |old(delivered)|, |old(delivered)|, 0, None)],
                  state := if starts then Starting else old(state), owned := old(owned) || starts,
                  published := (state, |clients|))
      ensures begun.BadDuration? ==> View() == old(View()) && log == old(log)
      ensures !begun.BadDuration? ==>
                && log == old(log) + [BeginRecording(id, durationSeconds * 1_000, startTimeout)]
                && id in active && id in recordings && recordings[id].from == |delivered|
                && leases == old(leases) + 1
                && begun == if old(closed) then StartThrows else Began
    {
      hide Run, RunKeeps;
      if durationSeconds < 1 || durationSeconds > 120 {
        RunsKeep(log, grace);
        return BadDuration;
      }
      hide CancelStop, UpdateState, EnsureStarted;
      begun := if closed then StartThrows else Began;
      Lease(id);
      CollectRecording(id, durationSeconds * 1_000, startTimeout);
      EnsureStart();
      Took(BeginRecording(id, durationSeconds * 1_000, startTimeout));
    }

    /** Cancel the stop, take a lease, publish. */
    method Lease(id: nat)
      modifies this`stopTimer, this`leases, this`operations, this`published
      ensures View() == Acquire(old(View()), id)
    {
      CancelStopTimer();
      leases := leases + 1;
      operations := operations + {id};
      Publish();
    }

    method CollectRecording(id: nat, duration: nat, startTimeout: nat)
      modifies this`active, this`recordings
      ensures View() == NewRecording(old(View()), id, duration, startTimeout)
      ensures active == old(active) + {id} && id in recordings
      ensures recordings[id].startTimer == Some(now + startTimeout) && recordings[id].duration == duration
    {
      var at := |delivered|;
      recordings := recordings[id :=
        Recording([], 0, duration, false, Some(now + startTimeout), None, at, at, 0, None)];
      active := active + {id};
    }

    /** The `finally` of a capture (which has no recording to cancel) or of a recording. */
    method FinishOperation(id: nat)
      requires Valid() && id in operations
      modifies this
      ensures Valid() && Kept() && log == old(log) + [Finish(id)]
      ensures var unused := !old(closed) && old(clients) == {} && leases == 0 && old(owned)
                            && old(stopTimer) == NoTimer;
              View() == old(View()).(
                leases := old(leases) - 1, operations := old(operations) - {id}, active := old(active) - {id},
                recordings := if id in old(active) then old(recordings)[id := Ended(old(recordings)[id], Cancelled)]
                              else old(recordings),
                stopTimer := if unused then Armed(old(now) + grace) else old(stopTimer))
      ensures id !in active && leases == old(leases) - 1
    {
      hide Run, Kept, RunKeeps;
      RunsKeepRecords(log, grace);
      SettleRecording(id, Cancelled);
      leases := leases - 1;
      operations := operations - {id};
      Schedule();
      Took(Finish(id));
    }

    method StartFailed()
      requires Valid()
      modifies this
      ensures Valid() && Kept() && log == old(log) + [StartRejected]
      ensures View() == old(View()).(state := Error, owned := false, published := (Error, |clients|))
    {
      hide Run, Kept, RunKeeps;
      state := Error;
      owned := false;
      Publish();
      Took(StartRejected);
    }

    /** `attachSource`, and whether there was a source before, which it destroys. */
    method AttachSource() returns (destroyed: bool)
      requires Valid()
      modifies this
      ensures Valid() && Kept() && log == old(log) + [Attach]
      ensures View() == old(View()).(source := true, state := Streaming, published := (Streaming, |clients|))
      ensures destroyed == old(source)
      ensures old(NoOrphan(View())) ==> (NoOrphan(View()) <==> old(MayAttach(View())))
    {
      hide Run, Kept, RunKeeps;
      destroyed := source;
      source := true;
      state := Streaming;
      Publish();
      Took(Attach);
    }

    /** The source's `data` listener, as far as recordings are concerned. */
    method OnChunk(chunk: bytes)
      requires Valid() && source
      modifies this
      ensures Valid() && Kept() && log == old(log) + [Chunk(chunk)]
      ensures View() == old(View()).(delivered := old(delivered) + [chunk], active := active, recordings := recordings)
      ensures recordings.Keys == old(recordings).Keys
      ensures forall id :: id in active <==>
                id in old(active) && id in old(recordings) && old(recordings)[id].size + |chunk| <= 256 * 1024 * 1024
      ensures forall id :: id in recordings ==>
                if id in old(active) then Grew(old(recordings)[id], recordings[id], chunk, old(now))
                else recordings[id] == old(recordings)[id]
      ensures delivered == old(delivered) + [chunk]
    {
      hide Run, Kept, RunKeeps, AppendOrFail, Grew;
      RunsKeepRecords(log, grace);
      delivered := delivered + [chunk];
      AppendToAll(chunk);
      forall id | id in recordings && id in old(active)
        ensures Grew(old(recordings)[id], recordings[id], chunk, now)
      {
        AppendMeans(old(recordings)[id], chunk, now);
      }
      ghost var expected := Deliver(old(View()), chunk);
      assert active == expected.active;
      assert recordings == expected.recordings;
      Took(Chunk(chunk));
    }

    method AppendToAll(chunk: bytes)
      requires active <= recordings.Keys
      modifies this`active, this`recordings
      ensures recordings.Keys == old(recordings).Keys
      ensures forall id :: id in recordings ==>
                recordings[id] == if id in old(active) then AppendOrFail(old(recordings)[id], chunk, now)
                                  else old(recordings)[id]
      ensures forall id :: id in active <==>
                id in old(active) && old(recordings)[id].size + |chunk| <= MAX_RECORDING_BYTES
    {
      hide AppendOrFail;
      var todo := active;
      while todo != {}
        invariant todo <= old(active)
        invariant recordings.Keys == old(recordings).Keys
        invariant forall id :: id in recordings ==>
                    recordings[id] == if id in old(active) && id !in todo
                                      then AppendOrFail(old(recordings)[id], chunk, now) else old(recordings)[id]
        invariant forall id :: id in active <==>
                    && id in old(active)
                    && (id in todo || old(recordings)[id].size + |chunk| <= MAX_RECORDING_BYTES)
        decreases |todo|
      {
        var id :| id in todo;
        AppendRecordingChunk(id, chunk);
        todo := todo - {id};
      }
    }

    method AppendRecordingChunk(id: nat, chunk: bytes)
      requires id in active && id in recordings
      modifies this`active, this`recordings
      ensures recordings == old(recordings)[id := AppendOrFail(old(recordings)[id], chunk, now)]
      ensures active == if old(recordings)[id].size + |chunk| <= MAX_RECORDING_BYTES then old(active)
                        else old(active) - {id}
      ensures old(recordings)[id].size + |chunk| <= 256 * 1024 * 1024 && !old(recordings)[id].started ==>
                && recordings[id].durationTimer == Some(now + old(recordings)[id].duration)
                && recordings[id].startTimer.None? && recordings[id].chunks == old(recordings)[id].chunks + [chunk]
      ensures old(recordings)[id].size + |chunk| <= 256 * 1024 * 1024 && old(recordings)[id].started ==>
                && recordings[id].durationTimer == old(recordings)[id].durationTimer
                && recordings[id].chunks == old(recordings)[id].chunks + [chunk]
    {
      var r := recordings[id];
      if !r.started {
        r := r.(started := true, startTimer := None, durationTimer := Some(now + r.duration));
      }
      r := r.(chunks := r.chunks + [chunk], size := r.size + |chunk|, until := r.until + 1);
      recordings := recordings[id := r];
      if r.size > MAX_RECORDING_BYTES {
        SettleRecording(id, Rejected);
      }
    }

    /** `#settleRecording` and `#cancelRecording`: only a recording still in the set is settled. */
    method SettleRecording(id: nat, outcome: Outcome)
      modifies this`active, this`recordings
      ensures View() == SettleOne(old(View()), id, outcome)
      ensures old(id in active && id in recordings) ==>
                && active == old(active) - {id}
                && recordings == old(recordings)[id := Settle(old(recordings)[id], outcome)]
    {
      if id !in active || id !in recordings {
        return;
      }
      active := active - {id};
      var r := recordings[id];
      recordings := recordings[id :=
        r.(startTimer := None, durationTimer := None, calls := r.calls + 1, outcome := Some(outcome))];
    }

    method FailAll()
      requires active <= recordings.Keys
      modifies this`active, this`recordings
      ensures View() == FailRecordings(old(View()))
      ensures active == {} && recordings.Keys == old(recordings).Keys
      ensures forall id :: id in recordings ==>
                recordings[id] == if id in old(active) then Ended(old(recordings)[id], Rejected)
                                  else old(recordings)[id]
    {
      hide Settle;
      while active != {}
        invariant active <= old(active)
        invariant recordings.Keys == old(recordings).Keys
        invariant forall id :: id in recordings ==>
                    recordings[id] == if id in old(active) && id !in active
                                      then Settle(old(recordings)[id], Rejected) else old(recordings)[id]
        decreases |active|
      {
        var id :| id in active;
        SettleRecording(id, Rejected);
      }
      forall id | id in recordings
        ensures recordings[id] == if id in old(active) then Ended(old(recordings)[id], Rejected)
                                  else old(recordings)[id]
      {
        SettleEnds(old(recordings)[id], Rejected);
      }
    }

    method Cleanup()
      modifies this`source
      ensures View() == CleanupSource(old(View()))
    {
      source := false;
    }

    method OnSourceEnded(failed: bool)
      requires Valid()
      modifies this
      ensures Valid() && Kept() && log == old(log) + [SourceEnded(failed)]
      ensures old(state) == Idle ==> View() == old(View())
      ensures old(state) != Idle ==>
                && View() == old(View()).(
                     active := {}, recordings := recordings, source := false, owned := false, clients := {},
                     state := if failed then Error else Idle, published := (state, 0))
                && recordings.Keys == old(recordings).Keys
                && forall id :: id in recordings ==>
                     recordings[id] == if id in old(active) then Ended(old(recordings)[id], Rejected)
                                       else old(recordings)[id]
      ensures old(state) == Idle || (active == {} && clients == {} && !source && !owned)
    {
      hide Run, Kept, RunKeeps, EndSource, Ended;
      RunsKeepRecords(log, grace);
      if state == Idle {
        Took(SourceEnded(failed));
        return;
      }
      EndWith(if failed then Error else Idle);
      Took(SourceEnded(failed));
    }

    /** What an ending source and `markStopped` have in common. */
    method EndWith(next: StreamState)
      requires active <= recordings.Keys
      modifies this`active, this`recordings, this`source, this`state, this`owned, this`clients, this`published
      ensures View() == EndSource(old(View()), next)
      ensures View() == old(View()).(
                active := {}, recordings := recordings, source := false, owned := false, clients := {},
                state := next, published := (next, 0))
      ensures active == {} && recordings.Keys == old(recordings).Keys
      ensures forall id :: id in recordings ==>
                recordings[id] == if id in old(active) then Ended(old(recordings)[id], Rejected)
                                  else old(recordings)[id]
    {
      hide Settle;
      FailAll();
      Cleanup();
      state := next;
      owned := false;
      clients := {};
      Publish();
    }

    method OnMarkStopped()
      requires Valid()
      modifies this
      ensures Valid() && Kept() && log == old(log) + [MarkStopped]
      ensures View() == old(View()).(
                active := {}, recordings := recordings, source := false, owned := false, clients := {},
                state := Idle, published := (Idle, 0))
      ensures recordings.Keys == old(recordings).Keys
      ensures forall id :: id in recordings ==>
                recordings[id] == if id in old(active) then Ended(old(recordings)[id], Rejected)
                                  else old(recordings)[id]
      ensures active == {} && clients == {} && !source && !owned && state == Idle
    {
      hide Run, Kept, RunKeeps, EndSource, Ended;
      RunsKeepRecords(log, grace);
      EndWith(Idle);
      Took(MarkStopped);
    }

    /** The grace timer's callback up to `stopStream`: nobody has used the session for the grace period. */
    method OnStopTimer()
      requires Valid() && stopTimer.Armed? && stopTimer.due <= now
      modifies this
      ensures Valid() && Kept() && log == old(log) + [StopTimerFires]
      ensures View() == old(View()).(stopTimer := NoTimer, state := Stopping, published := (Stopping, |clients|))
      ensures state == Stopping && clients == {} && operations == {}
      ensures old(LastUse(log, grace)) + grace <= now
    {
      hide Run, Kept, RunKeeps;
      RunsKeepTimer(log, grace);
      stopTimer := NoTimer;
      state := Stopping;
      Publish();
      Took(StopTimerFires);
    }

    method OnStopRejected()
      requires Valid()
      modifies this
      ensures Valid() && Kept() && log == old(log) + [StopRejected]
      ensures View() == old(View()).(state := Error, published := (Error, |clients|))
    {
      hide Run, Kept, RunKeeps;
      state := Error;
      Publish();
      Took(StopRejected);
    }

    /** `#stopNowIfUnused` up to its await, and whether it awaits at all. */
    method StopNowIfUnused() returns (stops: bool)
      requires Valid()
      modifies this
      ensures Valid() && Kept() && log == old(log) + [BeginStopNow]
      ensures View() == if !stops then old(View())
                        else old(View()).(stopTimer := NoTimer, state := Stopping, published := (Stopping, |clients|))
      ensures stops == (old(clients) == {} && old(leases) <= 0 && old(owned))
      ensures stops ==> state == Stopping && !stopTimer.Armed?
    {
      hide Run, Kept, RunKeeps;
      if |clients| > 0 || leases > 0 || !owned {
        Took(BeginStopNow);
        return false;
      }
      CancelStopTimer();
      state := Stopping;
      Publish();
      Took(BeginStopNow);
      stops := true;
    }

    method OnStopNowResolved()
      requires Valid()
      modifies this
      ensures Valid() && Kept() && log == old(log) + [StopNowResolved]
      ensures View() == if old(state) != Stopping then old(View())
                        else old(View()).(source := false, state := Idle, owned := false,
                                          published := (Idle, |clients|))
      ensures old(state) == Stopping ==> state == Idle && !source && !owned
    {
      hide Run, Kept, RunKeeps;
      if state == Stopping {
        Cleanup();
        state := Idle;
        owned := false;
        Publish();
      }
      Took(StopNowResolved);
    }

    method OnStartTimer(id: nat)
      requires Valid()
      requires id in recordings && recordings[id].startTimer.Some? && recordings[id].startTimer.value <= now
      modifies this
      ensures Valid() && Kept() && log == old(log) + [StartTimerFires(id)]
      ensures View() == old(View()).(
                active := old(active) - {id},
                recordings := old(recordings)[id := Ended(old(recordings)[id], Rejected)])
      ensures Registration(old(log), grace, id).Some?
      ensures var reg := Registration(old(log), grace, id).value;
              reg.at + reg.startTimeout <= now && |DeliveredAt(old(log), grace)| == reg.index
      ensures id !in active
    {
      hide Run, Kept, RunKeeps;
      DueStart(log, grace, id);
      SettleRecording(id, Rejected);
      Took(StartTimerFires(id));
    }

    /** The recording's time is up: it resolves to every chunk delivered since it was registered. */
    method OnDurationTimer(id: nat)
      requires Valid()
      requires id in recordings && recordings[id].durationTimer.Some? && recordings[id].durationTimer.value <= now
      modifies this
      ensures Valid() && Kept() && log == old(log) + [DurationTimerFires(id)]
      ensures Registration(old(log), grace, id).Some?
      ensures var reg, times := Registration(old(log), grace, id).value, DeliveredAt(old(log), grace);
              reg.index < |times| && times[reg.index] + reg.duration <= now
      ensures id in recordings && id !in active
      ensures var from := old(recordings)[id].from;
              from < |delivered| && recordings[id].outcome == Some(Resolved(Flatten(delivered[from..])))
      ensures View() == old(View()).(
                active := old(active) - {id},
                recordings := old(recordings)[id :=
                  Ended(old(recordings)[id], Resolved(Flatten(delivered[old(recordings)[id].from..])))])
    {
      hide Run, Kept, RunKeeps, Flatten;
      DueRecording(log, grace, id);
      SettleRecording(id, Resolved(Flatten(recordings[id].chunks)));
      Took(DurationTimerFires(id));
    }

    /** The session's share of the manager's `close`, and whether the provider is asked to stop. */
    method Shutdown() returns (stops: bool)
      requires Valid()
      modifies this
      ensures Valid() && Kept() && log == old(log) + [Close]
      ensures View() == if old(closed) then old(View())
                        else old(View()).(
                          closed := true, source := false, active := {}, recordings := recordings,
                          stopTimer := if old(stopTimer).Armed? then Cleared else old(stopTimer))
      ensures recordings.Keys == old(recordings).Keys
      ensures forall id :: id in recordings ==>
                recordings[id] == if !old(closed) && id in old(active) then Ended(old(recordings)[id], Rejected)
                                  else old(recordings)[id]
      ensures closed && stops == (owned && !old(closed))
      ensures !stopTimer.Armed? && (!old(closed) ==> active == {} && !source)
    {
      hide Run, Kept, RunKeeps;
      RunsKeepRecords(log, grace);
      RunsKeepTimer(log, grace);
      if closed {
        Took(Close);
        return false;
      }
      closed := true;
      if stopTimer.Armed? {
        stopTimer := Cleared;
      }
      Cleanup();
      FailAll();
      Took(Close);
      stops := owned;
    }
  }

  lemma AppendMeans(was: Recording, chunk: bytes, now: nat)
    ensures Grew(was, AppendOrFail(was, chunk, now), chunk, now)
  {
  }

  lemma SettleEnds(r: Recording, outcome: Outcome)
    ensures Settle(r, outcome) == Ended(r, outcome)
  {
  }

  /** A recording whose start timer is armed is in the set and has nothing yet. */
  lemma {:induction false} DueStart(events: seq<Event>, grace: nat, id: nat)
    requires var s := Run(events, grace); id in s.recordings && s.recordings[id].startTimer.Some?
    ensures id in Run(events, grace).active
    ensures TimersAreExact(events, grace, id) && Run(events, grace).now == Elapsed(events)
  {
    hide Run, TimersAreExact;
    RunKeepsRecordings(events, grace);
    var s := Run(events, grace);
    assert RecordingFits(s.recordings[id], id in s.active, s.delivered);
    RecordingTimers(events, grace, id);
    NowIsElapsed(events, grace);
  }

  lemma {:induction false} RunsKeepRecords(events: seq<Event>, grace: nat)
    ensures Run(events, grace).active <= Run(events, grace).recordings.Keys
  {
    hide Run;
    RunKeepsRecordings(events, grace);
  }

  lemma {:induction false} RunsKeepTimer(events: seq<Event>, grace: nat)
    ensures var s := Run(events, grace);
            && (s.stopTimer.Armed? ==> !s.closed && s.clients == {} && s.operations == {})
            && (s.stopTimer.Armed? && s.stopTimer.due <= s.now ==> LastUse(events, grace) + grace <= s.now)
  {
    hide Run, LastUse;
    RunIsAccounted(events, grace);
  }

  /** A recording whose duration timer is armed is in the set and has every chunk so far, at least one. */
  lemma {:induction false} DueRecording(events: seq<Event>, grace: nat, id: nat)
    requires var s := Run(events, grace); id in s.recordings && s.recordings[id].durationTimer.Some?
    ensures var s := Run(events, grace);
            && id in s.active
            && s.recordings[id].from < |s.delivered|
            && s.recordings[id].chunks == s.delivered[s.recordings[id].from..]
    ensures TimersAreExact(events, grace, id) && Run(events, grace).now == Elapsed(events)
  {
    hide Run, TimersAreExact;
    RunKeepsRecordings(events, grace);
    var s := Run(events, grace);
    assert RecordingFits(s.recordings[id], id in s.active, s.delivered);
    RecordingTimers(events, grace, id);
    NowIsElapsed(events, grace);
  }
}
