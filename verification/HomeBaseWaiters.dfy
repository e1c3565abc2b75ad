/**
 * The four reply slots of a HomeBase session (`HomeBasePpcsSession`).
 *
 * A slot holds the waiter of one outstanding request. Timers armed on the
 * event loop are a map from the waiter they belong to, and every call of a
 * waiter's `resolve` or `reject` is recorded, in order.
 */
module HomeBaseWaiters {
  import opened Bytes

  const CMD_GATEWAY_INFO: nat := 1100
  const CMD_CAMERA_INFO: nat := 1103
  const CMD_GET_ALARM_MODE: nat := 1151
  const CMD_STORAGE_INFO_HB3: int := 1307
  const CMD_NOTIFY_PAYLOAD: nat := 1351

  datatype Slot = PendingCommand | GatewayInfo | CameraInfo | Storage

  /** `command` is the outer command an acknowledgement must repeat. */
  datatype Waiter = Waiter(id: nat, command: nat)

  datatype Outcome = Resolved | RejectedByHomeBase(code: int) | TimedOut | SessionClosed

  datatype Settlement = Settlement(id: nat, outcome: Outcome)

  /** What parsing a payload as JSON gives: nothing usable, or an object with its `cmd`. */
  datatype Json = NotRecord | Record(cmd: int)

  datatype Reply = Reply(command: nat, isResult: bool, clear: bytes, json: Json)

  datatype Slots = Slots(
    pendingCommand: Option<Waiter>,
    gatewayInfo: Option<Waiter>,
    cameraInfo: Option<Waiter>,
    storage: Option<Waiter>)
  {
    function Get(slot: Slot): Option<Waiter> {
      match slot
      case PendingCommand => pendingCommand
      case GatewayInfo => gatewayInfo
      case CameraInfo => cameraInfo
      case Storage => storage
    }

    function With(slot: Slot, waiter: Option<Waiter>): (r: Slots)
      ensures forall other :: r.Get(other) == if other == slot then waiter else Get(other)
    {
      match slot
      case PendingCommand => this.(pendingCommand := waiter)
      case GatewayInfo => this.(gatewayInfo := waiter)
      case CameraInfo => this.(cameraInfo := waiter)
      case Storage => this.(storage := waiter)
    }
  }

  datatype State = State(
    slots: Slots,
    armed: map<nat, Slot>,
    settlements: seq<Settlement>,
    next: nat,
    closed: bool)

  const FRESH := State(Slots(None, None, None, None), map[], [], 0, false)

  datatype Event =
    | Wait(slot: Slot, command: nat)
    | Receive(reply: Reply)
    | Fire(id: nat)
    | Close

  /** Take the waiter out of a slot, disarm its timer and settle it. */
  function Settle(s: State, slot: Slot, outcome: Outcome): State {
    match s.slots.Get(slot)
    case None => s
    case Some(w) =>
      s.(slots := s.slots.With(slot, None),
         armed := s.armed - {w.id},
         settlements := s.settlements + [Settlement(w.id, outcome)])
  }

  /** The slot a reply settles, if any. */
  function Answers(s: State, r: Reply): Option<(Slot, Outcome)> {
    if r.isResult then
      if s.slots.pendingCommand.None? || s.slots.pendingCommand.value.command != r.command || |r.clear| < 4 then None
      else
        var code := ReadInt32LE(r.clear);
        Some((PendingCommand, if code == 0 then Resolved else RejectedByHomeBase(code)))
    else if r.command == CMD_GATEWAY_INFO && s.slots.gatewayInfo.Some? then Some((GatewayInfo, Resolved))
    else if r.command == CMD_CAMERA_INFO then
      if r.json.Record? && s.slots.cameraInfo.Some? then Some((CameraInfo, Resolved)) else None
    else if r.command == CMD_NOTIFY_PAYLOAD && r.json == Record(CMD_STORAGE_INFO_HB3) && s.slots.storage.Some? then
      Some((Storage, Resolved))
    else None
  }

  function ReadInt32LE(b: bytes): int
    requires |b| >= 4
  {
    var v := ReadU32LE(b, 0);
    if v < 0x8000_0000 then v else v - 0x1_0000_0000
  }

  /** One step; a timer that is not armed cannot fire, and nobody waits on a closed session. */
  function Step(s: State, e: Event): State {
    match e
    case Wait(slot, command) =>
      if s.closed || s.slots.Get(slot).Some? then s
      else s.(slots := s.slots.With(slot, Some(Waiter(s.next, command))),
              armed := s.armed[s.next := slot],
              next := s.next + 1)
    case Receive(reply) =>
      (match Answers(s, reply) case None => s case Some((slot, outcome)) => Settle(s, slot, outcome))
    case Fire(id) =>
      if id !in s.armed then s
      else s.(slots := s.slots.With(s.armed[id], None),
              armed := s.armed - {id},
              settlements := s.settlements + [Settlement(id, TimedOut)])
    case Close => if s.closed then s else RejectAll(s.(closed := true))
  }

  function RejectAll(s: State): State {
    Settle(Settle(Settle(Settle(s, PendingCommand, SessionClosed),
                         GatewayInfo, SessionClosed),
                  CameraInfo, SessionClosed),
           Storage, SessionClosed)
  }

  function Run(events: seq<Event>): State {
    if events == [] then FRESH else Step(Run(events[..|events| - 1]), events[|events| - 1])
  }

  ghost predicate Waits(s: State, id: nat) {
    exists slot :: s.slots.Get(slot).Some? && s.slots.Get(slot).value.id == id
  }

  /** How often a waiter's promise was settled. */
  function Settled(settlements: seq<Settlement>, id: nat): nat {
    if settlements == [] then 0
    else Settled(settlements[..|settlements| - 1], id) +
         if settlements[|settlements| - 1].id == id then 1 else 0
  }

  lemma SettledAppend(settlements: seq<Settlement>, last: Settlement, id: nat)
    ensures Settled(settlements + [last], id) == Settled(settlements, id) + if last.id == id then 1 else 0
  {
    assert (settlements + [last])[..|settlements|] == settlements;
  }

  /** The armed timers are exactly those of the waiters in the slots. */
  ghost predicate TimersMatch(s: State) {
    && (forall slot :: s.slots.Get(slot).Some? ==>
          s.slots.Get(slot).value.id in s.armed && s.armed[s.slots.Get(slot).value.id] == slot)
    && (forall id :: id in s.armed ==>
          s.slots.Get(s.armed[id]).Some? && s.slots.Get(s.armed[id]).value.id == id)
  }

  /** Every waiter ever created is still waiting and unsettled, or was settled exactly once. */
  ghost predicate SettledOnce(s: State) {
    forall id: nat :: Settled(s.settlements, id) == if id >= s.next || id in s.armed then 0 else 1
  }

  ghost predicate Inv(s: State) {
    && TimersMatch(s)
    && SettledOnce(s)
    && (forall id :: id in s.armed ==> id < s.next)
    && (s.closed ==> s.armed == map[])
  }

  lemma SettleKeepsInv(s: State, slot: Slot, outcome: Outcome)
    requires TimersMatch(s) && SettledOnce(s) && (forall id :: id in s.armed ==> id < s.next)
    ensures var t := Settle(s, slot, outcome);
            && TimersMatch(t) && SettledOnce(t) && (forall id :: id in t.armed ==> id < t.next)
            && t.slots == s.slots.With(slot, None) && t.armed.Keys <= s.armed.Keys
            && t.next == s.next && t.closed == s.closed
  {
    match s.slots.Get(slot)
    case None =>
    case Some(w) =>
      forall id: nat {
        SettledAppend(s.settlements, Settlement(w.id, outcome), id);
      }
  }

  /** After all four slots are rejected no timer is left. */
  lemma {:induction false} RejectAllEmpties(s: State)
    requires TimersMatch(s) && SettledOnce(s) && (forall id :: id in s.armed ==> id < s.next)
    ensures var t := RejectAll(s);
            && TimersMatch(t) && SettledOnce(t) && t.armed == map[]
            && t.slots == FRESH.slots && t.next == s.next && t.closed == s.closed
  {
    hide Settle, TimersMatch, SettledOnce;
    SettleKeepsInv(s, PendingCommand, SessionClosed);
    var s1 := Settle(s, PendingCommand, SessionClosed);
    SettleKeepsInv(s1, GatewayInfo, SessionClosed);
    var s2 := Settle(s1, GatewayInfo, SessionClosed);
    SettleKeepsInv(s2, CameraInfo, SessionClosed);
    var s3 := Settle(s2, CameraInfo, SessionClosed);
    SettleKeepsInv(s3, Storage, SessionClosed);
    NobodyWaits(RejectAll(s));
  }

  /** Everybody who waited is told that the session closed, and nobody else is told anything. */
  lemma RejectAllCloses(s: State)
    ensures var t := RejectAll(s);
            && s.settlements <= t.settlements
            && (forall i :: |s.settlements| <= i < |t.settlements| ==> t.settlements[i].outcome == SessionClosed)
            && (forall slot :: t.slots.Get(slot).None?) && t.next == s.next
  {
    var s1 := Settle(s, PendingCommand, SessionClosed);
    var s2 := Settle(s1, GatewayInfo, SessionClosed);
    var s3 := Settle(s2, CameraInfo, SessionClosed);
    SettleCloses(s, PendingCommand);
    SettleCloses(s1, GatewayInfo);
    SettleCloses(s2, CameraInfo);
    SettleCloses(s3, Storage);
    hide Settle, Slots.Get;
  }

  lemma SettleCloses(s: State, slot: Slot)
    ensures var t := Settle(s, slot, SessionClosed);
            && s.settlements <= t.settlements
            && (forall i :: |s.settlements| <= i < |t.settlements| ==> t.settlements[i].outcome == SessionClosed)
            && (forall other :: t.slots.Get(other) == if other == slot then None else s.slots.Get(other))
            && t.next == s.next
  {
  }

  lemma NobodyWaits(s: State)
    requires TimersMatch(s) && s.slots == FRESH.slots
    ensures s.armed == map[]
  {
    assert forall id :: id in s.armed ==> s.slots.Get(s.armed[id]).Some?;
  }

  /** Which replies a waiter in a slot is waiting for. */
  predicate IsAnswer(slot: Slot, waiter: Waiter, r: Reply) {
    match slot
    case PendingCommand => r.isResult && r.command == waiter.command && |r.clear| >= 4
    case GatewayInfo => !r.isResult && r.command == 1100
    case CameraInfo => !r.isResult && r.command == 1103 && r.json.Record?
    case Storage => !r.isResult && r.command == 1351 && r.json == Record(1307)
  }

  /** The result code of an acknowledgement: four bytes, the lowest first, as two's complement. */
  predicate IsCode(code: int, b: bytes)
    requires |b| >= 4
  {
    && -0x8000_0000 <= code < 0x8000_0000
    && (code + 0x1_0000_0000) % 0x1_0000_0000 ==
       b[0] as int + 256 * b[1] as int + 65536 * b[2] as int + 16777216 * b[3] as int
  }

  lemma CodeIsRead(b: bytes)
    requires |b| >= 4
    ensures IsCode(ReadInt32LE(b), b)
    ensures ReadInt32LE(b) == 0 <==> b[..4] == [0, 0, 0, 0]
  {
    assert b[..4] == [b[0], b[1], b[2], b[3]];
  }

  /**
   * A reply settles exactly the waiter it answers: the slot empties if and
   * only if the reply is what its waiter waits for; then that waiter's timer is
   * disarmed and it alone is settled, a command as resolved exactly on a result
   * of four zero bytes and otherwise with the result's code. Nothing else
   * changes.
   */
  lemma RepliesSettleTheirWaiter(s: State, r: Reply, slot: Slot)
    requires s.slots.Get(slot).Some?
    ensures var w, t := s.slots.Get(slot).value, Step(s, Receive(r));
            && (t.slots.Get(slot).None? <==> IsAnswer(slot, w, r))
            && (IsAnswer(slot, w, r) ==>
                  && |t.settlements| == |s.settlements| + 1
                  && t == s.(slots := s.slots.With(slot, None), armed := s.armed - {w.id}, settlements := t.settlements)
                  && t.settlements[..|s.settlements|] == s.settlements
                  && var last := t.settlements[|s.settlements|];
                     && last.id == w.id
                     && if slot == PendingCommand && r.clear[..4] != [0, 0, 0, 0]
                        then last.outcome.RejectedByHomeBase? && IsCode(last.outcome.code, r.clear)
                        else last.outcome == Resolved)
            && (!IsAnswer(slot, w, r) ==> t.slots.Get(slot) == s.slots.Get(slot))
  {
    if r.isResult && |r.clear| >= 4 {
      CodeIsRead(r.clear);
    }
  }

  /** A reply nobody waits for changes nothing. */
  lemma OtherRepliesDoNothing(s: State, r: Reply)
    requires forall slot :: s.slots.Get(slot).Some? ==> !IsAnswer(slot, s.slots.Get(slot).value, r)
    ensures Step(s, Receive(r)) == s
  {
    if Answers(s, r).Some? {
      var slot := Answers(s, r).value.0;
      assert s.slots.Get(slot).Some? ==> !IsAnswer(slot, s.slots.Get(slot).value, r);
    }
  }

  lemma {:induction false} WaitKeepsInv(s: State, slot: Slot, command: nat)
    requires Inv(s)
    ensures Inv(Step(s, Wait(slot, command)))
  {
    hide Slots.With, Slots.Get;
    var t := Step(s, Wait(slot, command));
    forall other ensures t.slots.Get(other) == if other == slot && t != s then Some(Waiter(s.next, command))
                                               else s.slots.Get(other) {
      WithGets(s.slots, slot, Some(Waiter(s.next, command)), other);
    }
  }

  lemma WithGets(slots: Slots, slot: Slot, waiter: Option<Waiter>, other: Slot)
    ensures slots.With(slot, waiter).Get(other) == if other == slot then waiter else slots.Get(other)
  {
  }

  lemma {:induction false} FireKeepsInv(s: State, id: nat)
    requires Inv(s)
    ensures Inv(Step(s, Fire(id)))
  {
    hide Slots.With, Slots.Get;
    if id in s.armed {
      forall other ensures s.slots.With(s.armed[id], None).Get(other) ==
                           if other == s.armed[id] then None else s.slots.Get(other) {
        WithGets(s.slots, s.armed[id], None, other);
      }
      forall other: nat {
        SettledAppend(s.settlements, Settlement(id, TimedOut), other);
      }
    }
  }

  lemma {:induction false} StepKeepsInv(s: State, e: Event)
    requires Inv(s)
    ensures Inv(Step(s, e))
  {
    match e
    case Wait(slot, command) =>
      WaitKeepsInv(s, slot, command);
    case Fire(id) =>
      FireKeepsInv(s, id);
    case Receive(reply) =>
      hide Answers, TimersMatch, SettledOnce, Settle;
      var answer := Answers(s, reply);
      if answer.Some? {
        SettleKeepsInv(s, answer.value.0, answer.value.1);
      }
    case Close =>
      hide TimersMatch, SettledOnce, RejectAll;
      if !s.closed {
        OnlyClosed(s);
        RejectAllEmpties(s.(closed := true));
      }
  }

  lemma OnlyClosed(s: State)
    requires Inv(s)
    ensures TimersMatch(s.(closed := true)) && SettledOnce(s.(closed := true))
  {
  }

  lemma {:induction false} RunKeepsInv(events: seq<Event>)
    ensures Inv(Run(events))
  {
    if events == [] {
    } else {
      RunKeepsInv(events[..|events| - 1]);
      StepKeepsInv(Run(events[..|events| - 1]), events[|events| - 1]);
    }
  }

  /**
   * In every run the armed timers are exactly those of the waiters in the
   * slots, each waiter has been settled once if it left its slot and never
   * before, and no two slots share a waiter.
   */
  lemma {:induction false} WaitersSettleOnce(events: seq<Event>, id: nat)
    requires id < Run(events).next
    ensures var s := Run(events);
            && (Waits(s, id) <==> id in s.armed)
            && Settled(s.settlements, id) == if Waits(s, id) then 0 else 1
  {
    RunKeepsInv(events);
    var s := Run(events);
    if id in s.armed {
      assert s.slots.Get(s.armed[id]).Some?;
    }
  }

  lemma {:induction false} ClosedStaysClosed(events: seq<Event>)
    requires Close in events
    ensures Run(events).closed
  {
    var before, last := events[..|events| - 1], events[|events| - 1];
    if last != Close {
      assert events == before + [last];
      ClosedStaysClosed(before);
    } else {
      RunKeepsInv(before);
      if !Run(before).closed {
        RejectAllEmpties(Run(before).(closed := true));
      }
    }
  }

  /** Once a run has closed the session, every waiter is settled and no timer is armed. */
  lemma CloseSettlesEverything(events: seq<Event>)
    requires Close in events
    ensures var s := Run(events);
            && s.armed == map[]
            && (forall slot :: s.slots.Get(slot) == None)
            && (forall id: nat :: id < s.next ==> Settled(s.settlements, id) == 1)
  {
    ClosedStaysClosed(events);
    RunKeepsInv(events);
  }

  // What a resolved waiter proves

  /** The `m`th event creates a waiter. */
  ghost predicate Creates(events: seq<Event>, m: nat, slot: Slot, w: Waiter) {
    && m < |events|
    && events[m] == Wait(slot, w.command)
    && var s := Run(events[..m]);
       !s.closed && s.slots.Get(slot).None? && s.next == w.id
  }

  /** The `n`th event is the reply that resolves a waiter. */
  ghost predicate Resolves(events: seq<Event>, n: nat, slot: Slot, w: Waiter) {
    && n < |events|
    && events[n].Receive?
    && Run(events[..n]).slots.Get(slot) == Some(w)
    && IsAnswer(slot, w, events[n].reply)
    && (slot == PendingCommand ==> events[n].reply.clear[..4] == [0, 0, 0, 0])
  }

  lemma CreatesEarlier(events: seq<Event>, m: nat, slot: Slot, w: Waiter, k: nat)
    requires k <= |events| && Creates(events[..k], m, slot, w)
    ensures Creates(events, m, slot, w)
  {
    assert events[..k][..m] == events[..m];
    hide Run;
  }

  lemma ResolvesEarlier(events: seq<Event>, n: nat, slot: Slot, w: Waiter, k: nat)
    requires k <= |events| && Resolves(events[..k], n, slot, w)
    ensures Resolves(events, n, slot, w)
  {
    assert events[..k][..n] == events[..n];
    hide Run, IsAnswer;
  }

  /** A waiter is in its slot since before a step, or is created by it. */
  lemma WaiterIsOldOrNew(s: State, e: Event, slot: Slot)
    requires Step(s, e).slots.Get(slot).Some?
    ensures var w := Step(s, e).slots.Get(slot).value;
            || s.slots.Get(slot) == Some(w)
            || (e == Wait(slot, w.command) && !s.closed && s.slots.Get(slot).None? && s.next == w.id)
  {
  }

  lemma {:induction false} WaiterWasCreated(events: seq<Event>, slot: Slot) returns (m: nat)
    requires Run(events).slots.Get(slot).Some?
    ensures Creates(events, m, slot, Run(events).slots.Get(slot).value)
  {
    assert events != [] by {
      NothingRun();
    }
    hide Step, Slots.Get;
    var s, last := Run(events[..|events| - 1]), |events| - 1;
    WaiterIsOldOrNew(s, events[last], slot);
    var w := Run(events).slots.Get(slot).value;
    if s.slots.Get(slot) == Some(w) {
      m := WaiterWasCreated(events[..last], slot);
      CreatesEarlier(events, m, slot, w, last);
    } else {
      m := last;
      assert Creates(events, m, slot, w);
    }
  }

  /** Only a reply resolves, and then the waiter of the slot it answers. */
  lemma NewResolution(s: State, e: Event, x: Settlement) returns (slot: Slot)
    requires x in Step(s, e).settlements && x !in s.settlements && x.outcome == Resolved
    ensures e.Receive? && s.slots.Get(slot).Some? && s.slots.Get(slot).value.id == x.id
    ensures IsAnswer(slot, s.slots.Get(slot).value, e.reply)
    ensures slot == PendingCommand ==> e.reply.clear[..4] == [0, 0, 0, 0]
  {
    assert e.Receive? && Answers(s, e.reply).Some?;
    slot := Answers(s, e.reply).value.0;
    RepliesSettleTheirWaiter(s, e.reply, slot);
    if slot == PendingCommand {
      CodeIsRead(e.reply.clear);
    }
  }

  /**
   * A waiter that resolved was created by a wait and resolved by a later reply
   * to just that waiter: for a command, an acknowledgement of the same command
   * with four zero bytes.
   */
  lemma {:induction false} ResolvedByItsReply(events: seq<Event>, id: nat)
    returns (slot: Slot, w: Waiter, m: nat, n: nat)
    requires Settlement(id, Resolved) in Run(events).settlements
    ensures w.id == id && m < n
    ensures Creates(events, m, slot, w) && Resolves(events, n, slot, w)
  {
    NothingRun();
    hide Step, Slots.Get, IsAnswer;
    var last := |events| - 1;
    var s := Run(events[..last]);
    if Settlement(id, Resolved) in s.settlements {
      slot, w, m, n := ResolvedByItsReply(events[..last], id);
      CreatesEarlier(events, m, slot, w, last);
      ResolvesEarlier(events, n, slot, w, last);
    } else {
      slot := NewResolution(s, events[last], Settlement(id, Resolved));
      w, n := s.slots.Get(slot).value, last;
      m := WaiterWasCreated(events[..last], slot);
      CreatesEarlier(events, m, slot, w, last);
      assert Resolves(events, n, slot, w);
    }
  }

  lemma NothingRun()
    ensures Run([]) == FRESH
  {
  }

  lemma StepCounts(s: State, e: Event)
    ensures s.next <= Step(s, e).next
  {
  }

  lemma {:induction false} IdsGrow(events: seq<Event>, k: nat)
    requires k <= |events|
    ensures Run(events[..k]).next <= Run(events).next
  {
    hide Step;
    if k == |events| {
      assert events[..k] == events;
    } else {
      var before := events[..|events| - 1];
      IdsGrow(before, k);
      assert before[..k] == events[..k];
      StepCounts(Run(before), events[|events| - 1]);
    }
  }

  lemma ResolvesInside(events: seq<Event>, n: nat, slot: Slot, w: Waiter)
    requires Resolves(events, n, slot, w)
    ensures n < |events| && events[n].Receive?
  {
  }

  /** A waiter whose id was not used up by `between` was created from then on, and before its reply. */
  lemma {:induction false} AskedInBetween(events: seq<Event>, between: nat, answered: nat, slot: Slot, w: Waiter)
    returns (asked: nat)
    requires between <= |events| && Resolves(events, answered, slot, w)
    requires w.id >= Run(events[..between]).next
    ensures between <= asked < answered && Creates(events, asked, slot, w)
  {
    hide Run, IsAnswer;
    asked := WaiterWasCreated(events[..answered], slot);
    CreatesEarlier(events, asked, slot, w, answered);
    if asked < between {
      IdsGrow(events[..between], asked + 1);
      assert events[..between][..asked + 1] == events[..asked + 1];
      CreatedCounts(events, asked, slot, w);
    }
  }

  /** A created waiter's id is used up. */
  lemma CreatedCounts(events: seq<Event>, m: nat, slot: Slot, w: Waiter)
    requires Creates(events, m, slot, w)
    ensures Run(events[..m + 1]).next == w.id + 1
  {
    assert events[..m + 1][..m] == events[..m] && events[..m + 1][m] == events[m];
    assert Run(events[..m + 1]) == Step(Run(events[..m]), events[m]);
    hide Run;
  }

  lemma Extends(before: seq<Event>, e: Event)
    ensures Run(before + [e]) == Step(Run(before), e)
  {
    assert (before + [e])[..|before + [e]| - 1] == before;
  }

  /** The fields and methods of the session that the slots consist of. */
  class HomeBaseReplies {
    var pendingCommand: Option<Waiter>
    var gatewayInfoWaiter: Option<Waiter>
    var cameraInfoWaiter: Option<Waiter>
    var storageWaiter: Option<Waiter>
    var closed: bool
    var armed: map<nat, Slot>
    var settlements: seq<Settlement>
    var next: nat
    /** History: every wait, reply, timeout and close. */
    ghost var log: seq<Event>

    function View(): State
      reads this
    {
      State(Slots(pendingCommand, gatewayInfoWaiter, cameraInfoWaiter, storageWaiter), armed, settlements, next, closed)
    }

    /** The slots are where the run of these ends. */
    ghost predicate Valid()
      reads this
    {
      View() == Run(log)
    }

    /** The armed timers are the slots' waiters', and every other waiter was settled exactly once. */
    ghost predicate Kept()
      reads this
    {
      Inv(View())
    }

    constructor ()
      ensures Valid() && Kept() && log == []
    {
      pendingCommand, gatewayInfoWaiter, cameraInfoWaiter, storageWaiter := None, None, None, None;
      closed, armed, settlements, next, log := false, map[], [], 0, [];
      new;
      RunKeepsInv([]);
    }

    /** Note what happened. */
    ghost method Took(e: Event)
      requires View() == Step(Run(log), e)
      modifies this`log
      ensures Valid() && Kept() && log == old(log) + [e]
    {
      hide Run, Step, Inv;
      Extends(log, e);
      RunKeepsInv(log + [e]);
      log := log + [e];
    }

    method Arm(slot: Slot, command: nat) returns (waiter: Waiter)
      modifies this`armed, this`next
      ensures waiter == Waiter(old(next), command)
      ensures armed == old(armed)[old(next) := slot] && next == old(next) + 1
    {
      waiter := Waiter(next, command);
      armed := armed[next := slot];
      next := next + 1;
    }

    /** `clearTimeout` and then `resolve` or `reject`. */
    method Finish(waiter: Waiter, outcome: Outcome)
      modifies this`armed, this`settlements
      ensures armed == old(armed) - {waiter.id}
      ensures settlements == old(settlements) + [Settlement(waiter.id, outcome)]
    {
      armed := armed - {waiter.id};
      settlements := settlements + [Settlement(waiter.id, outcome)];
    }

    /** `#sendAcknowledgedCommand` of a connected session: one command at a time. */
    method SendAcknowledgedCommand(command: nat) returns (refused: bool)
      requires Valid() && !closed
      modifies this
      ensures Valid() && Kept() && log == old(log) + [Wait(PendingCommand, command)]
      ensures refused == old(pendingCommand).Some?
      ensures pendingCommand == if refused then old(pendingCommand) else Some(Waiter(old(next), command))
      ensures View() == if refused then old(View())
                        else old(View()).(slots := old(View()).slots.With(PendingCommand,
                                                                          Some(Waiter(old(next), command))),
                                          armed := old(armed)[old(next) := PendingCommand], next := old(next) + 1)
    {
      hide Run, Kept;
      refused := pendingCommand.Some?;
      if !refused {
        var waiter := Arm(PendingCommand, command);
        pendingCommand := Some(waiter);
      }
      Took(Wait(PendingCommand, command));
    }

    /** `#waitForGatewayInfo`: one waiter at a time. */
    method WaitForGatewayInfo() returns (refused: bool)
      requires Valid() && !closed
      modifies this
      ensures Valid() && Kept() && log == old(log) + [Wait(GatewayInfo, 0)]
      ensures refused == old(gatewayInfoWaiter).Some?
      ensures gatewayInfoWaiter == if refused then old(gatewayInfoWaiter) else Some(Waiter(old(next), 0))
      ensures View() == if refused then old(View())
                        else old(View()).(slots := old(View()).slots.With(GatewayInfo, Some(Waiter(old(next), 0))),
                                          armed := old(armed)[old(next) := GatewayInfo], next := old(next) + 1)
    {
      hide Run, Kept;
      refused := gatewayInfoWaiter.Some?;
      if !refused {
        var waiter := Arm(GatewayInfo, 0);
        gatewayInfoWaiter := Some(waiter);
      }
      Took(Wait(GatewayInfo, 0));
    }

    /** `#waitForCameraInfo`: one waiter at a time. */
    method WaitForCameraInfo() returns (refused: bool)
      requires Valid() && !closed
      modifies this
      ensures Valid() && Kept() && log == old(log) + [Wait(CameraInfo, 0)]
      ensures refused == old(cameraInfoWaiter).Some?
      ensures cameraInfoWaiter == if refused then old(cameraInfoWaiter) else Some(Waiter(old(next), 0))
      ensures View() == if refused then old(View())
                        else old(View()).(slots := old(View()).slots.With(CameraInfo, Some(Waiter(old(next), 0))),
                                          armed := old(armed)[old(next) := CameraInfo], next := old(next) + 1)
    {
      hide Run, Kept;
      refused := cameraInfoWaiter.Some?;
      if !refused {
        var waiter := Arm(CameraInfo, 0);
        cameraInfoWaiter := Some(waiter);
      }
      Took(Wait(CameraInfo, 0));
    }

    /** `#waitForStorage`: one waiter at a time. */
    method WaitForStorage() returns (refused: bool)
      requires Valid() && !closed
      modifies this
      ensures Valid() && Kept() && log == old(log) + [Wait(Storage, 0)]
      ensures refused == old(storageWaiter).Some?
      ensures storageWaiter == if refused then old(storageWaiter) else Some(Waiter(old(next), 0))
      ensures View() == if refused then old(View())
                        else old(View()).(slots := old(View()).slots.With(Storage, Some(Waiter(old(next), 0))),
                                          armed := old(armed)[old(next) := Storage], next := old(next) + 1)
    {
      hide Run, Kept;
      refused := storageWaiter.Some?;
      if !refused {
        var waiter := Arm(Storage, 0);
        storageWaiter := Some(waiter);
      }
      Took(Wait(Storage, 0));
    }

    /** The callback of an armed timer: it empties its slot, whose waiter can only be its own. */
    method TimerFires(id: nat)
      requires Valid() && id in armed
      modifies this
      ensures Valid() && Kept() && log == old(log) + [Fire(id)]
      ensures View() == old(View()).(slots := old(View()).slots.With(old(armed)[id], None), armed := old(armed) - {id},
                                     settlements := old(settlements) + [Settlement(id, TimedOut)])
      ensures id !in armed && Settled(settlements, id) == 1
      ensures old(View()).slots.Get(old(armed)[id]).Some? && old(View()).slots.Get(old(armed)[id]).value.id == id
    {
      RunKeepsInv(log);
      hide Run, Settled;
      var slot := armed[id];
      armed := armed - {id};
      match slot {
        case PendingCommand => pendingCommand := None;
        case GatewayInfo => gatewayInfoWaiter := None;
        case CameraInfo => cameraInfoWaiter := None;
        case Storage => storageWaiter := None;
      }
      settlements := settlements + [Settlement(id, TimedOut)];
      Took(Fire(id));
    }

    /** What a frame changes: the slot, the timer and the settlement of the waiter it answers, and nothing else. */
    twostate predicate Answered(slot: Slot, r: Reply)
      requires old(View()).slots.Get(slot).Some?
      reads this
    {
      var s, t, w := old(View()), View(), old(View()).slots.Get(slot).value;
      && (t.slots.Get(slot).None? <==> IsAnswer(slot, w, r))
      && (IsAnswer(slot, w, r) ==>
            && t == s.(slots := s.slots.With(slot, None), armed := s.armed - {w.id}, settlements := t.settlements)
            && |t.settlements| == |s.settlements| + 1 && t.settlements[..|s.settlements|] == s.settlements
            && var last := t.settlements[|s.settlements|];
               && last.id == w.id
               && if slot == PendingCommand && r.clear[..4] != [0, 0, 0, 0]
                  then last.outcome.RejectedByHomeBase? && IsCode(last.outcome.code, r.clear)
                  else last.outcome == Resolved)
    }

    /** A frame settles the waiters it answers and no others. */
    method HandleFrame(r: Reply)
      requires Valid()
      modifies this
      ensures Valid() && Kept() && log == old(log) + [Receive(r)]
      ensures forall slot :: old(View()).slots.Get(slot).Some? ==> Answered(slot, r)
      ensures (forall slot :: old(View()).slots.Get(slot).Some? ==>
                 !IsAnswer(slot, old(View()).slots.Get(slot).value, r)) ==> View() == old(View())
    {
      hide Run, Kept, Step, IsAnswer, IsCode, Slots.Get, Slots.With;
      ghost var before := View();
      HandleClearFrame(r);
      assert View() == Step(before, Receive(r));
      forall slot | before.slots.Get(slot).Some? ensures Answered(slot, r) {
        RepliesSettleTheirWaiter(before, r, slot);
      }
      if forall slot :: before.slots.Get(slot).Some? ==> !IsAnswer(slot, before.slots.Get(slot).value, r) {
        OtherRepliesDoNothing(before, r);
      }
      Took(Receive(r));
    }

    /** `#handleFrame` after decryption. */
    method HandleClearFrame(r: Reply)
      modifies this`pendingCommand, this`gatewayInfoWaiter, this`cameraInfoWaiter, this`storageWaiter
      modifies this`armed, this`settlements
      ensures View() == Step(old(View()), Receive(r))
    {
      if r.isResult {
        if pendingCommand.None? || pendingCommand.value.command != r.command || |r.clear| < 4 {
          return;
        }
        var pending := pendingCommand.value;
        pendingCommand := None;
        var result := ReadInt32LE(r.clear);
        Finish(pending, if result == 0 then Resolved else RejectedByHomeBase(result));
        return;
      }
      if r.command == CMD_GATEWAY_INFO && gatewayInfoWaiter.Some? {
        var waiter := gatewayInfoWaiter.value;
        gatewayInfoWaiter := None;
        Finish(waiter, Resolved);
        return;
      }
      if r.command == CMD_CAMERA_INFO {
        if r.json.Record? && cameraInfoWaiter.Some? {
          var waiter := cameraInfoWaiter.value;
          cameraInfoWaiter := None;
          Finish(waiter, Resolved);
        }
        return;
      }
      if r.command == CMD_GET_ALARM_MODE && |r.clear| > 0 {
        return;
      }
      if r.command != CMD_NOTIFY_PAYLOAD {
        return;
      }
      if !r.json.Record? || r.json.cmd != CMD_STORAGE_INFO_HB3 || storageWaiter.None? {
        return;
      }
      var waiter := storageWaiter.value;
      storageWaiter := None;
      Finish(waiter, Resolved);
    }

    /** `close`: nobody waits afterwards, and everybody who did is settled. */
    method Shutdown()
      requires Valid()
      modifies this
      ensures Valid() && Kept() && log == old(log) + [Close]
      ensures closed && armed == map[]
      ensures forall id: nat :: id < next ==> Settled(settlements, id) == 1
      ensures old(settlements) <= settlements
      ensures forall i :: |old(settlements)| <= i < |settlements| ==> settlements[i].outcome == SessionClosed
    {
      hide Run, Settled;
      RunKeepsInv(log);
      if !closed {
        RejectAllCloses(View().(closed := true));
        closed := true;
        RejectPending();
      }
      Took(Close);
    }

    method RejectPending()
      modifies this`pendingCommand, this`gatewayInfoWaiter, this`cameraInfoWaiter, this`storageWaiter
      modifies this`armed, this`settlements
      ensures View() == RejectAll(old(View()))
    {
      hide Settle;
      ghost var s0 := View();
      if pendingCommand.Some? {
        Finish(pendingCommand.value, SessionClosed);
        pendingCommand := None;
      }
      ghost var s1 := View();
      SettleStep(s0, PendingCommand, s1);
      if gatewayInfoWaiter.Some? {
        Finish(gatewayInfoWaiter.value, SessionClosed);
        gatewayInfoWaiter := None;
      }
      ghost var s2 := View();
      SettleStep(s1, GatewayInfo, s2);
      if cameraInfoWaiter.Some? {
        Finish(cameraInfoWaiter.value, SessionClosed);
        cameraInfoWaiter := None;
      }
      ghost var s3 := View();
      SettleStep(s2, CameraInfo, s3);
      if storageWaiter.Some? {
        Finish(storageWaiter.value, SessionClosed);
        storageWaiter := None;
      }
      SettleStep(s3, Storage, View());
    }
  }

  /** What disarming, rejecting and forgetting a waiter comes to. */
  lemma SettleStep(s: State, slot: Slot, t: State)
    requires t.slots == s.slots.With(slot, None) && t.next == s.next && t.closed == s.closed
    requires match s.slots.Get(slot)
             case None => t.armed == s.armed && t.settlements == s.settlements
             case Some(w) =>
               t.armed == s.armed - {w.id} && t.settlements == s.settlements + [Settlement(w.id, SessionClosed)]
    ensures t == Settle(s, slot, SessionClosed)
  {
    if s.slots.Get(slot).None? {
      assert t.slots == s.slots;
    }
  }
}
