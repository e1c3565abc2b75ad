/** A write to a HomeBase, from the frames of its session to the station it returns. */
module ConfirmedWrites {
  import opened Bytes
  import opened StationOperations
  import W = HomeBaseWaiters

  /** The station's operations and the reply slots of one operation's session, on one time line. */
  datatype Moment = OnStation(event: Event) | OnSession(reply: W.Event)

  function Stations(js: seq<Moment>): seq<Event> {
    if js == [] then []
    else Stations(js[..|js| - 1]) + if js[|js| - 1].OnStation? then [js[|js| - 1].event] else []
  }

  function Sessions(js: seq<Moment>): seq<W.Event> {
    if js == [] then []
    else Sessions(js[..|js| - 1]) + if js[|js| - 1].OnSession? then [js[|js| - 1].reply] else []
  }

  function StationOf(firmware: Option<string>, js: seq<Moment>): State {
    Run(firmware, Stations(js))
  }

  /** A command and the read after it: the waiters `written` and `read`, made one after the other. */
  datatype Exchange = Exchange(operation: nat, command: nat, written: nat, read: nat)

  /** The acknowledgement that a write awaits has come, and its read has not begun. */
  ghost predicate HasAcknowledgement(events: seq<W.Event>, x: Exchange) {
    && x.read >= W.Run(events).next
    && exists m: nat :: W.Resolves(events, m, W.PendingCommand, W.Waiter(x.written, x.command))
  }

  /** The `m`th event is the frame that a read awaits, and says `observed`. */
  ghost predicate FrameAt(
    events: seq<W.Event>, m: nat, x: Exchange, observed: Observed, parse: bytes -> Option<Observed>)
  {
    W.Resolves(events, m, W.CameraInfo, W.Waiter(x.read, 0)) && parse(events[m].reply.clear) == Some(observed)
  }

  ghost predicate HasFrame(events: seq<W.Event>, x: Exchange, observed: Observed, parse: bytes -> Option<Observed>) {
    exists m: nat :: FrameAt(events, m, x, observed, parse)
  }

  /** The operation goes on exactly as `#writeStationValue` does: after what it awaits has resolved. */
  ghost predicate Awaits(js: seq<Moment>, x: Exchange, parse: bytes -> Option<Observed>) {
    && (forall n :: 0 <= n < |js| && js[n] == OnStation(Acked(x.operation, true)) ==>
          HasAcknowledgement(Sessions(js[..n]), x))
    && (forall n :: 0 <= n < |js| && js[n].OnStation? && js[n].event.CameraInfo?
                    && js[n].event.i == x.operation && js[n].event.frame.Some? ==>
          HasFrame(Sessions(js[..n]), x, js[n].event.frame.value, parse))
  }

  /** A write that reads was acknowledged just now, or read before. */
  lemma ReadingStep(s: State, e: Event, i: nat)
    requires var t := Step(s, e); i < |t.operations| && t.operations[i].kind.Write? && t.operations[i].status.Reading?
    ensures e == Acked(i, true)
            || (i < |s.operations| && s.operations[i].kind.Write? && s.operations[i].status.Reading?)
  {
    hide Merge;
  }

  predicate Resolved(s: State, i: nat) {
    && i < |s.operations| && s.operations[i].kind.Write?
    && s.operations[i].status.Done? && s.operations[i].status.result.Some?
  }

  /** A write that has resolved was confirmed just now, or had resolved before with the same result. */
  lemma ResolvedStep(s: State, e: Event, i: nat)
    requires Resolved(Step(s, e), i) && WritesConfirmed(s)
    ensures var op := Step(s, e).operations[i];
            || (Resolved(s, i) && s.operations[i] == op)
            || (&& e.CameraInfo? && e.i == i && e.frame.Some?
                && i < |s.operations| && s.operations[i].kind == op.kind && s.operations[i].status.Reading?
                && e.frame.value.Get(op.kind.field) == Some(op.kind.expected)
                && op.status.result.value == Merge(s.station, e.frame.value))
  {
    hide Merge, Observed.Get, Station.Get;
    assert i < |s.operations| ==> Confirmed(s.operations[i], s.clock);
  }

  lemma {:induction false} ReadingWasAcked(firmware: Option<string>, js: seq<Moment>, i: nat) returns (n: nat)
    requires var s := StationOf(firmware, js);
             i < |s.operations| && s.operations[i].kind.Write? && s.operations[i].status.Reading?
    ensures n < |js| && js[n] == OnStation(Acked(i, true))
  {
    hide Step;
    assert js != [];
    var before, last := js[..|js| - 1], js[|js| - 1];
    if last.OnSession? {
      assert Stations(js) == Stations(before);
      n := ReadingWasAcked(firmware, before, i);
    } else {
      Extends(firmware, Stations(before), last.event);
      ReadingStep(StationOf(firmware, before), last.event, i);
      if last.event == Acked(i, true) {
        n := |js| - 1;
      } else {
        n := ReadingWasAcked(firmware, before, i);
      }
    }
  }

  /** The moments at which a resolved write was acknowledged and confirmed. */
  lemma {:induction false} ResolvedWasConfirmed(firmware: Option<string>, js: seq<Moment>, i: nat)
    returns (acked: nat, confirmed: nat)
    requires Resolved(StationOf(firmware, js), i)
    ensures acked < confirmed < |js| && js[acked] == OnStation(Acked(i, true))
    ensures js[confirmed].OnStation? && js[confirmed].event.CameraInfo? && js[confirmed].event.i == i
    ensures js[confirmed].event.frame.Some?
    ensures var op := StationOf(firmware, js).operations[i];
            && js[confirmed].event.frame.value.Get(op.kind.field) == Some(op.kind.expected)
            && exists station :: op.status.result.value == Merge(station, js[confirmed].event.frame.value)
  {
    hide Step, Merge, Observed.Get, WritesConfirmed;
    assert js != [];
    var before, last := js[..|js| - 1], js[|js| - 1];
    if last.OnSession? {
      assert Stations(js) == Stations(before);
      acked, confirmed := ResolvedWasConfirmed(firmware, before, i);
    } else {
      var s := StationOf(firmware, before);
      Extends(firmware, Stations(before), last.event);
      RunConfirmsWrites(firmware, Stations(before));
      ResolvedStep(s, last.event, i);
      var op := StationOf(firmware, js).operations[i];
      if Resolved(s, i) && s.operations[i] == op {
        acked, confirmed := ResolvedWasConfirmed(firmware, before, i);
      } else {
        acked := ReadingWasAcked(firmware, before, i);
        confirmed := |js| - 1;
        assert op.status.result.value == Merge(s.station, last.event.frame.value);
      }
    }
  }

  lemma {:induction false} SessionsGrow(js: seq<Moment>, n: nat)
    requires n <= |js|
    ensures Sessions(js[..n]) <= Sessions(js)
  {
    if n == |js| {
      assert js[..n] == js;
    } else {
      SessionsGrow(js[..|js| - 1], n);
      assert js[..|js| - 1][..n] == js[..n];
    }
  }

  /** A prefix of the session's events, as a cut. */
  lemma SessionsCut(js: seq<Moment>, n: nat, m: nat)
    requires n <= m <= |js|
    ensures var early, late := Sessions(js[..n]), Sessions(js[..m]);
            |early| <= |late| && late[..|early|] == early
  {
    SessionsGrow(js[..m], n);
    assert js[..m][..n] == js[..n];
  }

  /**
   * Confirmed writes: under every interleaving of operations, pushes, frames
   * and timeouts, a write that resolved returned the requested value, and the
   * frames of its session show it: an acknowledgement of its command with four
   * zero bytes, then a wait for the station's state, then a camera-info frame
   * that carries the value.
   */
  lemma {:induction false} ResolvedWriteWasReadBack(
    firmware: Option<string>, js: seq<Moment>, x: Exchange, parse: bytes -> Option<Observed>)
    returns (acked: nat, asked: nat, answered: nat)
    requires Awaits(js, x, parse)
    requires Resolved(StationOf(firmware, js), x.operation)
    ensures acked < asked < answered
    ensures var events := Sessions(js);
            var op := StationOf(firmware, js).operations[x.operation];
            && W.Resolves(events, acked, W.PendingCommand, W.Waiter(x.written, x.command))
            && W.Creates(events, asked, W.CameraInfo, W.Waiter(x.read, 0))
            && W.Resolves(events, answered, W.CameraInfo, W.Waiter(x.read, 0))
            && parse(events[answered].reply.clear).Some?
            && parse(events[answered].reply.clear).value.Get(op.kind.field) == Some(op.kind.expected)
            && op.status.result.value.Get(op.kind.field) == Some(op.kind.expected)
  {
    hide Run, Step, Merge, Observed.Get, Station.Get, W.Resolves, W.Creates, W.Run, Sessions, Stations;
    var a, c := ResolvedWasConfirmed(firmware, js, x.operation);
    var early, late, events := Sessions(js[..a]), Sessions(js[..c]), Sessions(js);
    var observed := js[c].event.frame.value;
    assert HasAcknowledgement(early, x);
    assert HasFrame(late, x, observed, parse);
    var command, info := W.Waiter(x.written, x.command), W.Waiter(x.read, 0);
    acked :| W.Resolves(early, acked, W.PendingCommand, command);
    answered :| FrameAt(late, answered, x, observed, parse);
    W.ResolvesInside(late, answered, W.CameraInfo, info);
    SessionsCut(js, a, c);
    asked := W.AskedInBetween(late, |early|, answered, W.CameraInfo, info);
    SessionsCut(js, a, |js|);
    SessionsCut(js, c, |js|);
    assert js[..|js|] == js;
    W.ResolvesInside(early, acked, W.PendingCommand, command);
    W.ResolvesEarlier(events, acked, W.PendingCommand, command, |early|);
    W.ResolvesEarlier(events, answered, W.CameraInfo, info, |late|);
    W.CreatesEarlier(events, asked, W.CameraInfo, info, |late|);
    var station :| StationOf(firmware, js).operations[x.operation].status.result.value == Merge(station, observed);
    MergeStores(station, observed);
  }
}
