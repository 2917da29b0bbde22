/**
What the message thread and the poll thread achieve on their own: an expiry pops what a drain
pops, whatever happens meanwhile, and no timer that is due is left when they come to rest.
*/
module TimerProgress {
  import opened Options
  import opened HeapTree
  import opened TimerClock
  import opened TimerContainer
  import opened TimerService
  import opened TimerWakeup
  import opened TimerLifetime
  import opened TimerGuarantees

  // ---------------------------------------------------------------- an expiry is a drain

  /** What the expiry loop has taken and what a drain would still take are the drain of the heap it found. */
  ghost predicate ExpiryOk(s: State) {
    s.hand.Expiring? ==>
      && SizesExact(s.hand.entry)
      && SizesExact(Heap(s, s.hand.wake))
      && Drain(s.hand.entry, s.hand.now) == After(s.hand.taken, DrainDue(Heap(s, s.hand.wake), s.hand.now))
  }

  /** The loop begins with the clock of its message, and the heap it finds, and first pops the top. */
  lemma ExpiryStarts(s: State, now: Time)
    requires WakeupInv(s) && Enabled(s, Deliver(now)) && s.queue[0].MsgExpire?
    ensures ExpiryOk(Step(s, Deliver(now)))
    ensures var h := Step(s, Deliver(now)).hand; var heap := Heap(s, s.queue[0].wake);
      && h.Expiring? && h.wake == s.queue[0].wake && h.now == now && h.entry == heap
      && h.popped == (if heap.Node? then Some(heap.data) else None)
  {
    var w := s.queue[0].wake;
    assert HeapOk(s, w);
    if Heap(s, w).Node? {
      PopTakesTop(TimerRanks, Heap(s, w));
      DrainStep(Heap(s, w), now);
    } else {
      DrainDueStep(Heap(s, w), now, []);
    }
  }

  lemma ExpiryGoesOn(s: State)
    requires WakeupInv(s) && ExpiryOk(s) && Enabled(s, PopNext)
    ensures ExpiryOk(Step(s, PopNext))
    ensures var h, h' := s.hand, Step(s, PopNext).hand;
      h'.Expiring? ==> h'.now == h.now && h'.wake == h.wake && h'.entry == h.entry
  {
    DrainDueStep(Heap(s, s.hand.wake), s.hand.now, s.hand.taken);
  }

  /** Between the two states no loop has begun or gone on. */
  ghost predicate SameLoop(s: State, s': State) {
    s'.hand.Expiring? ==>
      && s.hand.Expiring? && s'.hand.(popped := None, caller := Unread) == s.hand.(popped := None, caller := Unread)
      && Heap(s', s.hand.wake) == Heap(s, s.hand.wake)
  }

  lemma ClientsLeaveTheLoop(s: State, a: Action)
    requires Enabled(s, a) && (a.NewClient? || a.Start? || a.Stop? || a.Destroy?)
    ensures SameLoop(s, Step(s, a))
  {
  }

  lemma PollLeavesTheLoop(s: State, a: Action)
    requires Enabled(s, a) && (a.Wake? || a.Disarm? || a.Unpoll? || a.SendExpire?)
    ensures SameLoop(s, Step(s, a))
  {
  }

  lemma MessagesLeaveTheLoop(s: State, a: Action)
    requires Enabled(s, a) && (a.ReadClient? || a.Fire? || a.Arm? || (a.Deliver? && !s.queue[0].MsgExpire?))
    ensures SameLoop(s, Step(s, a))
  {
  }

  lemma StepKeepsExpiry(s: State, a: Action)
    requires WakeupInv(s) && ExpiryOk(s) && Enabled(s, a)
    ensures ExpiryOk(Step(s, a))
  {
    if a.Deliver? && s.queue[0].MsgExpire? {
      ExpiryStarts(s, a.now);
    } else if a.PopNext? {
      ExpiryGoesOn(s);
    } else if a.NewClient? || a.Start? || a.Stop? || a.Destroy? {
      ClientsLeaveTheLoop(s, a);
    } else if a.ReadClient? || a.Fire? || a.Arm? || a.Deliver? {
      MessagesLeaveTheLoop(s, a);
    } else {
      PollLeavesTheLoop(s, a);
    }
  }

  /**
  Over all runs, and whatever clients and the poll thread do meanwhile: when an expiry ends, it has
  popped the drain of the heap it found, and leaves what that drain leaves.
  */
  lemma {:induction false} ExpiryIsDrain(actions: seq<Action>, s: State)
    requires Runs(actions, s)
    ensures ExpiryOk(s)
    ensures Enabled(s, PopNext) && !Step(s, PopNext).hand.Expiring? ==>
      Drain(s.hand.entry, s.hand.now) == (Heap(s, s.hand.wake), s.hand.taken)
  {
    if actions != [] {
      var n := |actions| - 1;
      var p: State :| Runs(actions[..n], p) && Enabled(p, actions[n]) && s == Step(p, actions[n]);
      ExpiryIsDrain(actions[..n], p);
      RunsKeepLife(actions[..n], p);
      StepKeepsExpiry(p, actions[n]);
    }
    if Enabled(s, PopNext) {
      DrainDueStep(Heap(s, s.hand.wake), s.hand.now, s.hand.taken);
    }
  }

  // ---------------------------------------------------------------- the work that is left

  function MsgWork(m: Msg): nat {
    match m
    case MsgPush(_) => 20
    case MsgRemove(_) => 1
    case MsgExpire(_) => 2
  }

  function QueueWork(q: seq<Msg>): nat { if q == [] then 0 else MsgWork(q[0]) + QueueWork(q[1..]) }

  ghost function ContainerWork(c: Container): nat {
    10 * Count(c.box.heap) +
    (match c.poll case Waiting => 0 case Woken => 5 case Disarmed => 4 case Unpolled => 3) +
    (if c.box.armed.Some? && !c.poll.Woken? then 6 else 0)
  }

  function PoppedWork(popped: Option<Timer>, caller: Caller): nat {
    if popped.None? then 0 else if caller.Unread? then 3 else 2
  }

  ghost function HandWork(s: State): nat {
    match s.hand
    case Idle => 0
    case Arming(_) => 7
    case Expiring(w, _, popped, caller, _, _) => (if Heap(s, w).Leaf? then 1 else 8) + PoppedWork(popped, caller)
  }

  /** An upper bound on how many steps the service takes before it rests, if no client calls. */
  ghost function Work(s: State): nat {
    QueueWork(s.queue) + ContainerWork(s.sw) + ContainerWork(s.hw) + HandWork(s)
  }

  lemma {:induction false} QueueWorkAppend(q: seq<Msg>, m: Msg)
    ensures QueueWork(q + [m]) == QueueWork(q) + MsgWork(m)
  {
    if q == [] {
      assert q + [m] == [m];
    } else {
      assert (q + [m])[1..] == q[1..] + [m];
      QueueWorkAppend(q[1..], m);
    }
  }

  /** Steps of the message thread and the poll thread. */
  predicate IsService(a: Action) {
    a.Deliver? || a.ReadClient? || a.Fire? || a.PopNext? || a.Arm? || a.Wake? || a.Disarm? || a.Unpoll? || a.SendExpire?
  }

  /** The containers' part of the work, when one of them has another box. */
  ghost function BoxWork(s: State, w: bool, b: Box): nat {
    ContainerWork(Get(s, w).(box := b)) + ContainerWork(Get(s, !w))
  }

  lemma StartArmingWork(s: State, w: bool, b: Box, prior: Option<Timer>)
    ensures Work(StartArming(s, w, b, prior)) ==
      QueueWork(s.queue) + BoxWork(s, w, b) + if TopMoved(b.heap, prior) then 7 else 0
  {
  }

  lemma PushWorks(s: State, now: Time)
    requires WakeupInv(s) && Enabled(s, Deliver(now)) && s.queue[0].MsgPush?
    ensures Work(Step(s, Deliver(now))) < Work(s)
  {
    var t := s.queue[0].timer;
    var b := Get(s, t.wake).box;
    assert HeapOk(s, t.wake);
    PushKeepsSizes(TimerRanks, b.heap, t);
    StartArmingWork(s.(queue := s.queue[1..]), t.wake, Pushed(b, t), Top(b.heap));
    BoxWorkOf(s, t.wake, Pushed(b, t));
  }

  lemma BoxWorkOf(s: State, w: bool, b: Box)
    requires b.armed == Get(s, w).box.armed
    ensures BoxWork(s, w, b) == ContainerWork(s.sw) + ContainerWork(s.hw) + 10 * (Count(b.heap) - Count(Heap(s, w)))
  {
  }

  lemma RemoveCount(b: Box, t: Timer)
    requires SizesExact(b.heap)
    ensures var arming := TopMoved(Removed(b, t).heap, TopAfterRemove(b, t));
      Count(Removed(b, t).heap) + (if arming then 1 else 0) <= Count(b.heap)
  {
    RemoveKeepsSizes(TimerRanks, b.heap, t);
    if Remove(TimerRanks, b.heap, t).1.None? {
      RemoveMissChangesNothing(TimerRanks, b.heap, t);
    }
  }

  lemma FreeWorksNothing(s: State, t: Timer)
    ensures Work(FreeDelegate(s, t)) == Work(s)
  {
  }

  lemma RemoveWorks(s: State, now: Time)
    requires WakeupInv(s) && Enabled(s, Deliver(now)) && s.queue[0].MsgRemove?
    ensures Work(Step(s, Deliver(now))) < Work(s)
  {
    var t := s.queue[0].timer;
    var b := Get(s, t.wake).box;
    var s1 := s.(queue := s.queue[1..]);
    assert HeapOk(s, t.wake);
    RemoveCount(b, t);
    StartArmingWork(s1, t.wake, Removed(b, t), TopAfterRemove(b, t));
    BoxWorkOf(s, t.wake, Removed(b, t));
    FreeWorksNothing(StartArming(s1, t.wake, Removed(b, t), TopAfterRemove(b, t)), t);
  }

  /** What a state is worth whose message thread is in the loop. */
  lemma ExpiringWork(s: State, w: bool, heap: Tree<Timer>, hand: Hand)
    requires hand.Expiring? && hand.wake == w
    ensures Work(PutBox(s, w, Get(s, w).box.(heap := heap)).(hand := hand)) ==
      QueueWork(s.queue) + BoxWork(s, w, Get(s, w).box.(heap := heap)) +
      (if heap.Leaf? then 1 else 8) + PoppedWork(hand.popped, hand.caller)
  {
  }

  lemma PopTopCount(heap: Tree<Timer>)
    requires SizesExact(heap)
    ensures var (heap', popped) := PopTop(TimerRanks, heap);
      if popped.None? then heap'.Leaf? && heap.Leaf? else Count(heap') + 1 == Count(heap)
  {
    if heap.Node? { PopKeepsSizes(TimerRanks, heap); }
  }

  lemma ExpireWorks(s: State, now: Time)
    requires WakeupInv(s) && Enabled(s, Deliver(now)) && s.queue[0].MsgExpire?
    ensures Work(Step(s, Deliver(now))) < Work(s)
  {
    var w := s.queue[0].wake;
    var (heap, popped) := PopTop(TimerRanks, Heap(s, w));
    var hand := Expiring(w, now, popped, Unread, Heap(s, w), if popped.Some? then [popped.value] else []);
    assert HeapOk(s, w);
    PopTopCount(Heap(s, w));
    ExpiringWork(s.(queue := s.queue[1..]), w, heap, hand);
    BoxWorkOf(s, w, Get(s, w).box.(heap := heap));
    assert Step(s, Deliver(now)) ==
      PutBox(s.(queue := s.queue[1..]), w, Get(s, w).box.(heap := heap)).(hand := hand);
  }

  lemma PopNextWorks(s: State)
    requires WakeupInv(s) && Enabled(s, PopNext)
    ensures Work(Step(s, PopNext)) < Work(s)
  {
    var w := s.hand.wake;
    var b := Get(s, w).box;
    assert HeapOk(s, w);
    if PopIfDue(b.heap, s.hand.now).1.Some? {
      PopTopCount(b.heap);
      var (heap, popped) := PopIfDue(b.heap, s.hand.now);
      ExpiringWork(s, w, heap, s.hand.(popped := popped, caller := Unread, taken := s.hand.taken + [popped.value]));
      BoxWorkOf(s, w, b.(heap := heap));
    } else {
      StartArmingWork(s, w, b, None);
    }
  }

  lemma FireWorks(s: State)
    requires Enabled(s, Fire)
    ensures Work(Step(s, Fire)) < Work(s)
  {
    forall m { QueueWorkAppend(s.queue, m); }
  }

  lemma ReadWorks(s: State)
    requires Enabled(s, ReadClient)
    ensures Work(Step(s, ReadClient)) < Work(s)
  {
  }

  lemma ArmWorks(s: State)
    requires Enabled(s, Arm)
    ensures Work(Step(s, Arm)) < Work(s)
  {
    var c := Get(s, s.hand.wake);
    assert ContainerWork(c.(box := SetTime(c.box))) <= ContainerWork(c) + 6;
  }

  lemma PollWorks(s: State, a: Action)
    requires Enabled(s, a) && (a.Wake? || a.Disarm? || a.Unpoll?)
    ensures Work(Step(s, a)) < Work(s)
  {
  }

  lemma SendExpireWorks(s: State, w: bool)
    requires Enabled(s, SendExpire(w))
    ensures Work(Step(s, SendExpire(w))) < Work(s)
  {
    QueueWorkAppend(s.queue, MsgExpire(w));
  }

  lemma ServiceStepWorks(s: State, a: Action)
    requires WakeupInv(s) && Enabled(s, a) && IsService(a)
    ensures Work(Step(s, a)) < Work(s)
  {
    match a
    case Deliver(now) =>
      if s.queue[0].MsgPush? {
        PushWorks(s, now);
      } else if s.queue[0].MsgRemove? {
        RemoveWorks(s, now);
      } else {
        ExpireWorks(s, now);
      }
    case ReadClient => ReadWorks(s);
    case Fire => FireWorks(s);
    case PopNext => PopNextWorks(s);
    case Arm => ArmWorks(s);
    case SendExpire(w) => SendExpireWorks(s, w);
    case _ => PollWorks(s, a);
  }

  /** Steps of the service alone, from s to s'. */
  ghost predicate ServiceRun(s: State, actions: seq<Action>, s': State) {
    if actions == [] then s' == s
    else
      var n := |actions| - 1;
      exists p: State :: ServiceRun(s, actions[..n], p) && IsService(actions[n]) && Enabled(p, actions[n])
                         && s' == Step(p, actions[n])
  }

  lemma {:induction false} RunGoesOn(actions: seq<Action>, p: State, a: Action)
    requires Runs(actions, p) && Enabled(p, a)
    ensures Runs(actions + [a], Step(p, a))
  {
    assert (actions + [a])[..|actions|] == actions;
  }

  lemma {:induction false} ServiceStepOfRun(actions: seq<Action>, p: State, a: Action)
    requires Runs(actions, p) && Enabled(p, a) && IsService(a)
    ensures Runs(actions + [a], Step(p, a)) && Work(Step(p, a)) < Work(p)
  {
    NoLostWakeup(actions, p);
    ServiceStepWorks(p, a);
    RunGoesOn(actions, p, a);
  }

  /** While no client calls, the service takes at most Work(s) steps, in whatever order and at whatever clock. */
  lemma {:induction false} ServiceComesToRest(before: seq<Action>, s: State, actions: seq<Action>, s': State)
    requires Runs(before, s) && ServiceRun(s, actions, s')
    ensures Runs(before + actions, s') && |actions| + Work(s') <= Work(s)
  {
    if actions == [] {
      assert before + actions == before;
    } else {
      var n := |actions| - 1;
      var first, a := actions[..n], actions[n];
      var p: State :| ServiceRun(s, first, p) && IsService(a) && Enabled(p, a) && s' == Step(p, a);
      ServiceComesToRest(before, s, first, p);
      ServiceStepOfRun(before + first, p, a);
      LastOf(before, actions);
    }
  }

  lemma LastOf<T>(before: seq<T>, xs: seq<T>)
    requires xs != []
    ensures before + xs == (before + xs[..|xs| - 1]) + [xs[|xs| - 1]]
  {
  }

  // ---------------------------------------------------------------- at rest

  /** No thread of the service can take a step, at a clock that reads now. */
  ghost predicate AtRest(s: State, now: Time) {
    && s.queue == [] && s.hand.Idle?
    && forall w :: Get(s, w).poll.Waiting? && !Enabled(s, Wake(w, now))
  }

  /** Short of rest some step of the service is enabled; so it never stalls. */
  lemma RestsOrWorks(s: State, now: Time)
    ensures AtRest(s, now) <==>
      forall a :: IsService(a) && (a.Deliver? || a.Wake? ==> a.now == now) ==> !Enabled(s, a)
  {
    if !AtRest(s, now) {
      var a := NextStep(s, now);
      assert IsService(a) && Enabled(s, a);
    }
  }

  ghost function NextStep(s: State, now: Time): (a: Action)
    requires !AtRest(s, now)
    ensures IsService(a) && (a.Deliver? || a.Wake? ==> a.now == now) && Enabled(s, a)
  {
    if s.hand.Arming? then Arm
    else if s.hand.Expiring? then
      (if s.hand.popped.None? then PopNext else if s.hand.caller.Unread? then ReadClient else Fire)
    else if s.queue != [] then Deliver(now)
    else
      var w :| !Get(s, w).poll.Waiting? || Enabled(s, Wake(w, now));
      match Get(s, w).poll
      case Waiting => Wake(w, now)
      case Woken => Disarm(w)
      case Disarmed => Unpoll(w)
      case Unpolled => SendExpire(w)
  }

  lemma NothingDueInHeap(s: State, w: bool, now: Time, t: Timer)
    requires WakeupInv(s) && AtRest(s, now) && Contains(Heap(s, w), t)
    ensures !Due(t, now)
  {
    assert HeapOk(s, w) && Watched(s, w);
    assert Get(s, w).poll.Waiting? && !Enabled(s, Wake(w, now));
    TimerRanksIsTotal();
    TopIsHighest(TimerRanks, Heap(s, w), t);
  }

  /**
  Whenever the service has come to rest, no timer that still runs is due, and nothing is left of
  any other: all have been stopped, or called back, and freed.
  */
  lemma {:induction false} AtRestAllAreServed(actions: seq<Action>, s: State, now: Time)
    requires Runs(actions, s) && AtRest(s, now)
    ensures forall c :: Running(s, c) ==> !Due(s.clients[c].value, now)
    ensures forall t :: t in s.delegates ==> exists c :: Running(s, c) && s.clients[c] == Some(t)
  {
    RunsKeepLife(actions, s);
    forall c | Running(s, c) ensures !Due(s.clients[c].value, now) {
      var t := s.clients[c].value;
      assert ClientOk(s, c) && TimerOk(s, t);
      assert Contains(Heap(s, t.wake), t);
      NothingDueInHeap(s, t.wake, now, t);
    }
    forall t | t in s.delegates ensures exists c :: Running(s, c) && s.clients[c] == Some(t) {
      NoLeak(actions, s, t);
      var c :| c in s.clients && s.clients[c] == Some(t);
      assert Running(s, c);
    }
  }
}
