/**
The AGPS connection state machine (the base class AgpsStateMachine): its state, subscriber list
and the callbacks it makes, as values, with one function per event.
*/
module AgpsMachine {

  datatype AgpsState = StateReleased | StatePending | StateAcquired | StateReleasing

  datatype AgpsEvent = EventSubscribe | EventUnsubscribe | EventGranted | EventReleased | EventDenied

  datatype NotificationType = ForAll | ForInactive | ForActive

  /** A subscriber is known by its connection handle. */
  datatype AgpsSubscriber = AgpsSubscriber(connHandle: int, waitForCloseComplete: bool, isInactive: bool)

  datatype Callback =
    | AtlOpenStatus(handle: int, isSuccess: bool)
    | AtlCloseStatus(handle: int, isSuccess: bool)
    | DataConn(request: bool)   // the framework is asked for, or to drop, the data connection

  type Subscribers = seq<AgpsSubscriber>

  datatype Machine = Machine(state: AgpsState, list: Subscribers, log: seq<Callback>)

  // ---------------------------------------------------------------- lists

  ghost predicate Has(l: Subscribers, h: int) { exists i :: 0 <= i < |l| && l[i].connHandle == h }

  ghost predicate AnyActive(l: Subscribers) { exists i :: 0 <= i < |l| && !l[i].isInactive }

  predicate Concerns(who: NotificationType, s: AgpsSubscriber) {
    who.ForAll? || (who.ForInactive? && s.isInactive) || (who.ForActive? && !s.isInactive)
  }

  ghost function Keep(l: Subscribers, p: AgpsSubscriber -> bool): Subscribers {
    if l == [] then [] else (if p(l[0]) then [l[0]] else []) + Keep(l[1..], p)
  }

  ghost function Spared(who: NotificationType): AgpsSubscriber -> bool { (s: AgpsSubscriber) => !Concerns(who, s) }

  ghost function OtherThan(h: int): AgpsSubscriber -> bool { (s: AgpsSubscriber) => s.connHandle != h }

  ghost function Unconcerned(l: Subscribers, who: NotificationType): Subscribers { Keep(l, Spared(who)) }

  ghost function Without(l: Subscribers, h: int): Subscribers { Keep(l, OtherThan(h)) }

  /** The callback of notifyEventToSubscriber. */
  function Note(event: AgpsEvent, s: AgpsSubscriber): Callback
    requires !event.EventSubscribe?
  {
    match event
    case EventGranted => AtlOpenStatus(s.connHandle, true)
    case EventDenied => AtlOpenStatus(s.connHandle, false)
    case _ => AtlCloseStatus(s.connHandle, true)
  }

  ghost function Notes(l: Subscribers, event: AgpsEvent, who: NotificationType): seq<Callback>
    requires !event.EventSubscribe?
  {
    if l == [] then []
    else (if Concerns(who, l[0]) then [Note(event, l[0])] else []) + Notes(l[1..], event, who)
  }

  /** The first subscriber with the handle becomes inactive. */
  ghost function MarkInactive(l: Subscribers, h: int): Subscribers {
    if l == [] then []
    else if l[0].connHandle == h then [l[0].(isInactive := true)] + l[1..]
    else [l[0]] + MarkInactive(l[1..], h)
  }

  ghost function Find(l: Subscribers, h: int): AgpsSubscriber
    requires Has(l, h)
  {
    if l[0].connHandle == h then l[0] else Find(l[1..], h)
  }

  ghost function Add(l: Subscribers, s: AgpsSubscriber): Subscribers {
    if Has(l, s.connHandle) then l else l + [s]
  }

  // ---------------------------------------------------------------- the events

  ghost function OnSubscribe(m: Machine, s: AgpsSubscriber): Machine {
    match m.state
    case StateReleased => Machine(StatePending, Add(m.list, s), m.log + [DataConn(true)])
    case StateAcquired => m.(log := m.log + [Note(EventGranted, s)], list := Add(m.list, s))
    case _ => m.(list := Add(m.list, s))
  }

  /** The current subscriber goes inactive, or is told and deleted. */
  ghost function Leave(m: Machine, s: AgpsSubscriber): Machine {
    if s.waitForCloseComplete then m.(list := MarkInactive(m.list, s.connHandle))
    else m.(log := m.log + [Note(EventUnsubscribe, s)], list := Without(m.list, s.connHandle))
  }

  ghost function OnUnsubscribe(m: Machine, s: AgpsSubscriber): Machine {
    if m.state.StateReleased? then m.(log := m.log + [Note(EventUnsubscribe, s)])
    else
      var m1 := Leave(m, s);
      if m.state.StateReleasing? then
        if m1.list == [] then m1.(state := StateReleased) else m1
      else if m1.list == [] then m1.(state := StateReleased, log := m1.log + [DataConn(false)])
      else if !AnyActive(m1.list) then m1.(state := StateReleasing, log := m1.log + [DataConn(false)])
      else m1
  }

  ghost function OnGranted(m: Machine): Machine {
    if !m.state.StatePending? then m
    else m.(state := StateAcquired, log := m.log + Notes(m.list, EventGranted, ForActive))
  }

  ghost function DropAll(m: Machine, event: AgpsEvent): Machine
    requires !event.EventSubscribe?
  {
    Machine(StateReleased, Unconcerned(m.list, ForAll), m.log + Notes(m.list, event, ForAll))
  }

  /** RELEASED or DENIED while releasing: the inactive leave, and the active wait for a new connection. */
  ghost function EndRelease(m: Machine): Machine {
    var m1 := m.(list := Unconcerned(m.list, ForInactive),
                 log := m.log + Notes(m.list, EventReleased, ForInactive));
    if AnyActive(m1.list) then m1.(state := StatePending, log := m1.log + [DataConn(true)])
    else m1.(state := StateReleased)
  }

  ghost function OnReleased(m: Machine): Machine {
    match m.state
    case StateAcquired => DropAll(m, EventReleased)
    case StateReleasing => EndRelease(m)
    case _ => m
  }

  ghost function OnDenied(m: Machine): Machine {
    match m.state
    case StatePending => DropAll(m, EventDenied)
    case StateReleasing => EndRelease(m)
    case _ => m
  }

  /** dropAllSubscribers, on a modem restart: the state stays. */
  ghost function OnModemRestart(m: Machine): Machine { m.(list := []) }

  // ---------------------------------------------------------------- runs

  /** What can happen to one machine, as AgpsManager makes it happen. */
  datatype Input = Request(h: int, wait: bool) | Release(h: int) | Granted | Released | Denied | ModemRestart

  const Initial := Machine(StateReleased, [], [])

  ghost function Step(m: Machine, e: Input): Machine {
    match e
    case Request(h, wait) => OnSubscribe(m, AgpsSubscriber(h, wait, false))
    case Release(h) =>
      if Has(m.list, h) then OnUnsubscribe(m, Find(m.list, h))
      else m.(log := m.log + [AtlCloseStatus(h, false)])
    case Granted => OnGranted(m)
    case Released => OnReleased(m)
    case Denied => OnDenied(m)
    case ModemRestart => OnModemRestart(m)
  }

  ghost function Run(es: seq<Input>): Machine {
    if es == [] then Initial else Step(Run(es[..|es| - 1]), es[|es| - 1])
  }

  // ---------------------------------------------------------------- invariants

  ghost predicate Distinct(l: Subscribers) {
    forall i, j :: 0 <= i < j < |l| ==> l[i].connHandle != l[j].connHandle
  }

  ghost predicate InactiveWait(l: Subscribers) {
    forall i :: 0 <= i < |l| && l[i].isInactive ==> l[i].waitForCloseComplete
  }

  ghost predicate AnyInactive(l: Subscribers) { exists i :: 0 <= i < |l| && l[i].isInactive }

  /** The framework's last instruction, if any. */
  ghost function LastRequest(log: seq<Callback>): int {
    if log == [] then 0
    else
      var c := log[|log| - 1];
      if c.DataConn? then (if c.request then 1 else -1) else LastRequest(log[..|log| - 1])
  }

  /** What survives even a modem restart. */
  ghost predicate AlwaysOk(m: Machine) {
    && Distinct(m.list)
    && InactiveWait(m.list)
    && (m.state.StateReleased? ==> m.list == [])
    && (m.state.StatePending? || m.state.StateAcquired? ==> LastRequest(m.log) == 1)
    && (m.state.StateReleasing? ==> LastRequest(m.log) == -1)
  }

  ghost predicate MachineOk(m: Machine) {
    && AlwaysOk(m)
    && (m.list == [] ==> m.state.StateReleased?)
    && (m.state.StatePending? || m.state.StateAcquired? ==> AnyActive(m.list))
    && (m.state.StateReleasing? ==> AnyInactive(m.list))
  }

  // ---------------------------------------------------------------- list lemmas

  lemma {:induction false} AboutKeep(l: Subscribers, p: AgpsSubscriber -> bool)
    ensures forall s :: s in Keep(l, p) <==> s in l && p(s)
    ensures Distinct(l) ==> Distinct(Keep(l, p))
    ensures forall i :: 0 <= i < |Keep(l, p)| ==> Keep(l, p)[i] in l && p(Keep(l, p)[i])
  {
    if l != [] {
      var x, l' := l[0], l[1..];
      AboutKeep(l', p);
      assert l == [x] + l';
      var k := Keep(l', p);
      assert forall i :: 0 <= i < |k| ==> k[i] in l';
    }
  }

  /** One step of a loop that erases while iterating: kept is behind the iterator, rest ahead. */
  lemma IteratorStep(kept: Subscribers, rest: Subscribers)
    requires rest != []
    ensures (kept + rest)[|kept|] == rest[0]
    ensures (kept + rest)[..|kept|] + (kept + rest)[|kept| + 1..] == kept + rest[1..]
    ensures kept + [rest[0]] + rest[1..] == kept + rest
  {
  }

  lemma KeepStep(kept: Subscribers, rest: Subscribers, p: AgpsSubscriber -> bool)
    requires rest != []
    ensures kept + Keep(rest, p) == (if p(rest[0]) then kept + [rest[0]] else kept) + Keep(rest[1..], p)
  {
    var k := Keep(rest[1..], p);
    if p(rest[0]) {
      assert kept + ([rest[0]] + k) == kept + [rest[0]] + k;
    } else {
      assert [] + k == k;
    }
  }

  lemma NotesStep(log: seq<Callback>, rest: Subscribers, event: AgpsEvent, who: NotificationType)
    requires rest != [] && !event.EventSubscribe?
    ensures log + Notes(rest, event, who) ==
      (if Concerns(who, rest[0]) then log + [Note(event, rest[0])] else log) + Notes(rest[1..], event, who)
  {
  }

  lemma {:induction false} AboutFind(l: Subscribers, h: int)
    requires Has(l, h)
    ensures Find(l, h) in l && Find(l, h).connHandle == h
  {
    if l[0].connHandle != h {
      var i :| 0 <= i < |l| && l[i].connHandle == h;
      assert l[1..][i - 1].connHandle == h;
      AboutFind(l[1..], h);
    }
  }

  lemma {:induction false} AboutMark(l: Subscribers, h: int)
    ensures |MarkInactive(l, h)| == |l|
    ensures forall i :: 0 <= i < |l| ==>
      MarkInactive(l, h)[i] == l[i] || (l[i].connHandle == h && MarkInactive(l, h)[i] == l[i].(isInactive := true))
    ensures Has(l, h) ==> exists i :: 0 <= i < |l| && l[i].connHandle == h && MarkInactive(l, h)[i].isInactive
  {
    if l != [] && l[0].connHandle != h {
      AboutMark(l[1..], h);
      if Has(l, h) {
        var i :| 0 <= i < |l| && l[i].connHandle == h;
        assert l[1..][i - 1].connHandle == h;
        var j :| 0 <= j < |l[1..]| && l[1..][j].connHandle == h && MarkInactive(l[1..], h)[j].isInactive;
        assert l[j + 1].connHandle == h && MarkInactive(l, h)[j + 1].isInactive;
      }
    }
  }

  lemma {:induction false} MarkAtFirst(l: Subscribers, h: int, i: nat)
    requires i <= |l| && (forall k :: 0 <= k < i ==> l[k].connHandle != h)
    requires i < |l| ==> l[i].connHandle == h
    ensures MarkInactive(l, h) == if i < |l| then l[i := l[i].(isInactive := true)] else l
  {
    if i > 0 {
      MarkAtFirst(l[1..], h, i - 1);
    }
  }

  lemma {:induction false} NotesAreNoInstructions(log: seq<Callback>, l: Subscribers, event: AgpsEvent,
                                                  who: NotificationType)
    requires !event.EventSubscribe?
    ensures LastRequest(log + Notes(l, event, who)) == LastRequest(log)
    decreases |l|
  {
    if l == [] {
      assert log + [] == log;
    } else {
      NotesStep(log, l, event, who);
      if Concerns(who, l[0]) {
        OneMore(log, Note(event, l[0]));
        NotesAreNoInstructions(log + [Note(event, l[0])], l[1..], event, who);
      } else {
        NotesAreNoInstructions(log, l[1..], event, who);
      }
    }
  }

  lemma OneMore(log: seq<Callback>, c: Callback)
    ensures LastRequest(log + [c]) == if c.DataConn? then (if c.request then 1 else -1) else LastRequest(log)
  {
    assert (log + [c])[..|log|] == log;
  }
}
