/**
The whole timer service as a step system: client threads that start and stop timers, one
message thread that does all heap work, and one poll thread that waits on the two kernel
timers (alarms, wake true, and plain timers, wake false). Every interleaving of the steps
below is a run. Objects are never reused: a delegate is known by a fresh id.
*/
module TimerService {
  import opened Options
  import opened HeapTree
  import opened TimerClock
  import opened TimerContainer

  /** Where the poll thread is with one container: in epoll_wait, or in LocTimerContainer::expire. */
  datatype Phase = Waiting | Woken | Disarmed | Unpolled

  datatype Container = Container(box: Box, poll: Phase)

  datatype Msg = MsgPush(timer: Timer) | MsgRemove(timer: Timer) | MsgExpire(wake: bool)

  /** LocTimerDelegate::expire before and after it reads mClient; stops is how often that client was stopped by then. */
  datatype Caller = Unread | ReadAs(client: Option<nat>, stops: nat)

  /**
  The message thread: between messages, inside the loop of MsgTimerExpire::proc, or inside
  updateSoonestTime, between addPoll and timerfd_settime. For the loop, entry is the heap it
  found and taken what it has popped; these and stops are history, and nothing reads them.
  */
  datatype Hand =
    | Idle
    | Expiring(wake: bool, now: Time, popped: Option<Timer>, caller: Caller, entry: Tree<Timer>, taken: seq<Timer>)
    | Arming(wake: bool)

  /** A live LocTimerDelegate: mClient, the client whose lock it shares, and mContainer != NULL. */
  datatype Delegate = Delegate(client: Option<nat>, owner: nat, attached: bool)

  /** What has happened so far, as counts; nothing in the service reads it. */
  datatype Past = Past(
    pushSent: multiset<Timer>, removeSent: multiset<Timer>, freed: multiset<Timer>,
    starts: multiset<nat>, stops: multiset<nat>, callbacks: multiset<nat>)

  datatype State = State(
    sw: Container, hw: Container, queue: seq<Msg>, hand: Hand,
    clients: map<nat, Option<Timer>>,   // the live LocTimer objects and their mTimer
    delegates: map<Timer, Delegate>,    // the live delegates
    locks: map<nat, nat>,               // the live LocSharedLocks, one a client, and their mRef
    nextTimer: nat, nextClient: nat, past: Past)

  datatype Action =
    | NewClient
    | Start(c: nat, now: Time, ms: nat, wake: bool)
    | Stop(c: nat)
    | Destroy(c: nat)
    | Deliver(now: Time)                // the message thread takes a message; now is its clock
    | ReadClient                        // LocTimerDelegate::expire on the popped delegate reads mClient
    | Fire                              // and calls stop() on it, and its callback if that succeeds
    | PopNext                           // popIfOutRanks, or the end of the loop
    | Arm                               // timerfd_settime in updateSoonestTime
    | Wake(wake: bool, now: Time)       // epoll_wait returns for a container
    | Disarm(wake: bool)
    | Unpoll(wake: bool)
    | SendExpire(wake: bool)

  // ---------------------------------------------------------------- state access

  function Get(s: State, wake: bool): Container { if wake then s.hw else s.sw }

  function Heap(s: State, wake: bool): Tree<Timer> { Get(s, wake).box.heap }

  function Put(s: State, wake: bool, c: Container): State { if wake then s.(hw := c) else s.(sw := c) }

  function PutBox(s: State, wake: bool, b: Box): State { Put(s, wake, Get(s, wake).(box := b)) }

  function PutPoll(s: State, wake: bool, p: Phase): State { Put(s, wake, Get(s, wake).(poll := p)) }

  // ---------------------------------------------------------------- the steps

  const Initial: State :=
    var c := Container(Box(Leaf, None, false), Waiting);
    State(c, c, [], Idle, map[], map[], map[], 0, 0,
          Past(multiset{}, multiset{}, multiset{}, multiset{}, multiset{}, multiset{}))

  /** What the callers and the kernel grant: live clients, messages to take, a timer that is due. */
  predicate Enabled(s: State, a: Action) {
    match a
    case NewClient => true
    case Start(c, now, ms, _) => c in s.clients && ms < TWO_32 && InWindow(FutureTime(now, ms))
    case Stop(c) => c in s.clients
    case Destroy(c) => c in s.clients
    case Deliver(_) => s.hand.Idle? && s.queue != []
    case ReadClient => s.hand.Expiring? && s.hand.popped.Some? && s.hand.caller.Unread?
    case Fire => s.hand.Expiring? && s.hand.popped.Some? && s.hand.caller.ReadAs?
    case PopNext => s.hand.Expiring? && s.hand.popped.None?
    case Arm => s.hand.Arming?
    case Wake(w, now) =>
      var b := Get(s, w).box;
      Get(s, w).poll.Waiting? && b.polled && b.armed.Some? && Nanos(b.armed.value) <= Nanos(now)
    case Disarm(w) => Get(s, w).poll.Woken?
    case Unpoll(w) => Get(s, w).poll.Disarmed?
    case SendExpire(w) => Get(s, w).poll.Unpolled?
  }

  function StartClient(s: State, c: nat, t: Timer): State
    requires c in s.clients
  {
    s.(queue := s.queue + [MsgPush(t)],
       clients := s.clients[c := Some(t)],
       delegates := s.delegates[t := Delegate(Some(c), c, true)],
       locks := if c in s.locks then s.locks[c := s.locks[c] + 1] else s.locks,
       nextTimer := s.nextTimer + 1,
       past := s.past.(pushSent := s.past.pushSent + multiset{t}, starts := s.past.starts + multiset{c}))
  }

  /** LocTimerDelegate::destroyLocked. */
  function DestroyLocked(s: State, t: Timer): State {
    if t !in s.delegates then s
    else
      var d := s.delegates[t];
      var s1 := s.(delegates := s.delegates[t := d.(client := None, attached := false)]);
      if !d.attached then s1
      else s1.(queue := s1.queue + [MsgRemove(t)],
               past := s1.past.(removeSent := s1.past.removeSent + multiset{t}))
  }

  /** LocTimer::stop, by the client or from expire(); it succeeds exactly when mTimer is set. */
  function StopClient(s: State, c: nat, byExpiry: bool): State
    requires c in s.clients
  {
    match s.clients[c]
    case None => s
    case Some(t) =>
      var past := if byExpiry then s.past.(callbacks := s.past.callbacks + multiset{c})
                  else s.past.(stops := s.past.stops + multiset{c});
      DestroyLocked(s.(clients := s.clients[c := None], past := past), t)
  }

  /** LocSharedLock::drop: the last drop deletes the lock. */
  function Dropped(locks: map<nat, nat>, c: nat): map<nat, nat> {
    if c !in locks then locks
    else if locks[c] <= 1 then locks - {c}
    else locks[c := locks[c] - 1]
  }

  function FreeDelegate(s: State, t: Timer): State {
    if t !in s.delegates then s
    else s.(delegates := s.delegates - {t},
            locks := Dropped(s.locks, s.delegates[t].owner),
            past := s.past.(freed := s.past.freed + multiset{t}))
  }

  /** updateSoonestTime up to timerfd_settime, if it has something to do; the heap is that of b already. */
  function StartArming(s: State, w: bool, b: Box, priorTop: Option<Timer>): State {
    PutBox(s, w, SetPoll(b, priorTop)).(hand := if TopMoved(b.heap, priorTop) then Arming(w) else Idle)
  }

  function DeliverStep(s: State, now: Time): State
    requires s.queue != []
  {
    var s1 := s.(queue := s.queue[1..]);
    match s.queue[0]
    case MsgPush(t) =>
      var b := Get(s, t.wake).box;
      StartArming(s1, t.wake, Pushed(b, t), Top(b.heap))
    case MsgRemove(t) =>
      var b := Get(s, t.wake).box;
      FreeDelegate(StartArming(s1, t.wake, Removed(b, t), TopAfterRemove(b, t)), t)
    case MsgExpire(w) =>
      var (heap, popped) := PopTop(TimerRanks, Heap(s, w));
      var taken := if popped.Some? then [popped.value] else [];
      PutBox(s1, w, Get(s, w).box.(heap := heap)).(hand := Expiring(w, now, popped, Unread, Heap(s, w), taken))
  }

  function ReadStep(s: State, t: Timer): State
    requires s.hand.Expiring?
  {
    var client := if t in s.delegates then s.delegates[t].client else None;
    s.(hand := s.hand.(caller := ReadAs(client, if client.Some? then s.past.stops[client.value] else 0)))
  }

  /** stop() on the client that was read; what happens if that is gone by now is not part of the model. */
  function FireStep(s: State, client: Option<nat>): State {
    if client.Some? && client.value in s.clients then StopClient(s, client.value, true) else s
  }

  function PopNextStep(s: State): State
    requires s.hand.Expiring?
  {
    var w := s.hand.wake;
    var (heap, popped) := PopIfDue(Heap(s, w), s.hand.now);
    if popped.Some? then
      var hand := s.hand.(popped := popped, caller := Unread, taken := s.hand.taken + [popped.value]);
      PutBox(s, w, Get(s, w).box.(heap := heap)).(hand := hand)
    else StartArming(s, w, Get(s, w).box, None)
  }

  function ArmStep(s: State): State
    requires s.hand.Arming?
  {
    PutBox(s, s.hand.wake, SetTime(Get(s, s.hand.wake).box)).(hand := Idle)
  }

  function Step(s: State, a: Action): State
    requires Enabled(s, a)
  {
    match a
    case NewClient =>
      s.(clients := s.clients[s.nextClient := None], locks := s.locks[s.nextClient := 1],
         nextClient := s.nextClient + 1)
    case Start(c, now, ms, w) =>
      if s.clients[c].Some? then s else StartClient(s, c, Timer(s.nextTimer, FutureTime(now, ms), w))
    case Stop(c) => StopClient(s, c, false)
    case Destroy(c) =>
      var s1 := StopClient(s, c, false);
      s1.(clients := s1.clients - {c}, locks := Dropped(s1.locks, c))
    case Deliver(now) => DeliverStep(s, now)
    case ReadClient => ReadStep(s, s.hand.popped.value)
    case Fire => FireStep(s, s.hand.caller.client).(hand := s.hand.(popped := None, caller := Unread))
    case PopNext => PopNextStep(s)
    case Arm => ArmStep(s)
    case Wake(w, _) => PutPoll(s, w, Woken)
    case Disarm(w) => PutPoll(PutBox(s, w, Get(s, w).box.(armed := None)), w, Disarmed)
    case Unpoll(w) => PutPoll(PutBox(s, w, Get(s, w).box.(polled := false)), w, Unpolled)
    case SendExpire(w) => PutPoll(s, w, Waiting).(queue := s.queue + [MsgExpire(w)])
  }

  /** The states of runs: the steps of the actions, one after the other, all of them enabled. */
  ghost predicate Runs(actions: seq<Action>, s: State) {
    if actions == [] then s == Initial
    else
      var n := |actions| - 1;
      exists p: State :: Runs(actions[..n], p) && Enabled(p, actions[n]) && s == Step(p, actions[n])
  }

  // ---------------------------------------------------------------- invariants

  /** Heaps are well formed and hold only timers of their own container. */
  ghost predicate HeapOk(s: State, w: bool) {
    && WellFormed(TimerRanks, Heap(s, w))
    && forall t :: Contains(Heap(s, w), t) ==> t.wake == w
  }

  /** No lost wakeup: somebody is going to look at a non-empty heap when its top is due. */
  ghost predicate Watched(s: State, w: bool) {
    var c := Get(s, w);
    c.box.heap.Node? ==>
      || ((c.box.armed == Some(c.box.heap.data.due) || s.hand == Arming(w)) && c.box.polled)
      || !c.poll.Waiting?
      || MsgExpire(w) in s.queue
      || (s.hand.Expiring? && s.hand.wake == w)
  }

  ghost predicate PushBeforeRemove(q: seq<Msg>) {
    forall i, j :: 0 <= i < |q| && 0 <= j < |q| && q[i].MsgRemove? && q[j] == MsgPush(q[i].timer) ==> j < i
  }

  ghost function Live(s: State, t: Timer): nat { if t in s.delegates then 1 else 0 }

  ghost predicate Attached(s: State, t: Timer) { t in s.delegates && s.delegates[t].attached }

  ghost function Pushes(s: State, t: Timer): nat { multiset(s.queue)[MsgPush(t)] }

  ghost function Removes(s: State, t: Timer): nat { multiset(s.queue)[MsgRemove(t)] }

  ghost function Held(s: State, t: Timer): nat {
    if s.hand.Expiring? && s.hand.popped == Some(t) then 1 else 0
  }

  /** In how many places the service still holds a pointer to the delegate, removal apart. */
  ghost function Places(s: State, t: Timer): nat { Pushes(s, t) + Occ(Heap(s, t.wake), t) + Held(s, t) }

  ghost predicate TimerOk(s: State, t: Timer) {
    && Places(s, t) <= Live(s, t)
    && (Attached(s, t) ==> Places(s, t) == 1)
    && Removes(s, t) == (if t in s.delegates && !Attached(s, t) then 1 else 0)
    && (t in s.delegates ==> t.id < s.nextTimer && (Attached(s, t) <==> s.delegates[t].client.Some?))
    && (Attached(s, t) ==>
          var c := s.delegates[t].owner;
          s.delegates[t].client == Some(c) && c in s.clients && s.clients[c] == Some(t))
  }

  ghost predicate TimerPastOk(s: State, t: Timer) {
    && Live(s, t) <= s.past.pushSent[t] <= 1
    && (s.past.pushSent[t] == 1 ==> t.id < s.nextTimer)
    && s.past.removeSent[t] == (if s.past.pushSent[t] == 1 && !Attached(s, t) then 1 else 0)
    && s.past.freed[t] == s.past.pushSent[t] - Live(s, t)
  }

  ghost predicate Running(s: State, c: nat) { c in s.clients && s.clients[c].Some? }

  ghost function Owned(s: State, c: nat): set<Timer> {
    set t | t in s.delegates && s.delegates[t].owner == c
  }

  /** The client that was read is that of the popped delegate, which is attached until it is stopped. */
  ghost predicate HandOk(s: State) {
    s.hand.Expiring? && s.hand.popped.Some? && s.hand.caller.ReadAs? ==>
      var t, read := s.hand.popped.value, s.hand.caller;
      if read.client.None? then !Attached(s, t)
      else
        var c := read.client.value;
        && t in s.delegates && s.delegates[t].owner == c
        && read.stops <= s.past.stops[c]
        && (Attached(s, t) <==> s.past.stops[c] == read.stops)
  }

  ghost predicate ClientOk(s: State, c: nat) {
    && (Running(s, c) ==> Attached(s, s.clients[c].value) && s.delegates[s.clients[c].value].owner == c)
    && s.past.starts[c] == s.past.stops[c] + s.past.callbacks[c] + (if Running(s, c) then 1 else 0)
    && (c in s.clients ==> c < s.nextClient)
  }

  /** The shared lock counts the LocTimer, while it lives, and each live delegate. */
  ghost predicate LockOk(s: State, c: nat) {
    && (if c in s.locks then s.locks[c] else 0) == |Owned(s, c)| + (if c in s.clients then 1 else 0)
    && (c in s.locks ==> s.locks[c] > 0)
    && (c >= s.nextClient ==> c !in s.clients && Owned(s, c) == {})
  }
}
