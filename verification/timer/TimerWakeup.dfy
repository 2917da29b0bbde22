/** No wakeup is lost, under every interleaving of pushes, removals, expiries and the poll thread. */
module TimerWakeup {
  import opened Options
  import opened HeapTree
  import opened TimerClock
  import opened TimerContainer
  import opened TimerService

  /** Between two boxes, a new top is polled, and to be armed; an old top keeps whatever it had. */
  ghost predicate TopFollowed(b: Box, b': Box, arming: bool) {
    || b'.heap.Leaf?
    || (arming && b'.polled)
    || (b.heap.Node? && b' == b.(heap := b'.heap) && b'.heap.data == b.heap.data)
  }

  ghost predicate BoxOk(b: Box, w: bool) {
    && WellFormed(TimerRanks, b.heap)
    && forall t :: Contains(b.heap, t) ==> t.wake == w
  }

  lemma PushFollowsTop(b: Box, t: Timer)
    requires BoxOk(b, t.wake)
    ensures BoxOk(Pushed(b, t), t.wake)
    ensures TopFollowed(b, SetPoll(Pushed(b, t), Top(b.heap)), TopMoved(Pushed(b, t).heap, Top(b.heap)))
  {
    TimerRanksIsTotal();
    PushKeepsSizes(TimerRanks, b.heap, t);
    PushKeepsOrder(TimerRanks, b.heap, t);
    forall z { PushAddsOne(TimerRanks, b.heap, t, z); }
  }

  lemma RemoveFollowsTop(b: Box, t: Timer)
    requires BoxOk(b, t.wake)
    ensures BoxOk(Removed(b, t), t.wake)
    ensures var prior := TopAfterRemove(b, t);
      TopFollowed(b, SetPoll(Removed(b, t), prior), TopMoved(Removed(b, t).heap, prior))
  {
    TimerRanksIsTotal();
    RemoveIsComplete(TimerRanks, b.heap, t);
    RemoveKeepsSizes(TimerRanks, b.heap, t);
    RemoveKeepsOrder(TimerRanks, b.heap, t);
    RemoveMissOrTake(b.heap, t);
  }

  lemma RemoveMissOrTake(heap: Tree<Timer>, t: Timer)
    ensures forall z :: Contains(Remove(TimerRanks, heap, t).0, z) ==> Contains(heap, z)
  {
    if Remove(TimerRanks, heap, t).1.None? {
      RemoveMissChangesNothing(TimerRanks, heap, t);
    }
    forall z { RemoveTakesOne(TimerRanks, heap, t, z); }
  }

  lemma PopShrinks(b: Box, w: bool)
    requires BoxOk(b, w) && b.heap.Node?
    ensures BoxOk(b.(heap := Pop(TimerRanks, b.heap).0), w)
  {
    TimerRanksIsTotal();
    PopKeepsSizes(TimerRanks, b.heap);
    PopKeepsOrder(TimerRanks, b.heap);
    forall z { PopRemovesOne(TimerRanks, b.heap, z); }
  }

  ghost predicate WakeupInv(s: State) {
    forall w :: HeapOk(s, w) && Watched(s, w)
  }

  lemma BothBoxes(s: State, w: bool)
    requires HeapOk(s, w) && Watched(s, w) && HeapOk(s, !w) && Watched(s, !w)
    ensures WakeupInv(s)
  {
  }

  /** updateSoonestTime, by the message thread that is done with everything else. */
  lemma StartArmingKeepsWakeup(s: State, s1: State, w: bool, b: Box, prior: Option<Timer>)
    requires WakeupInv(s) && s1.sw == s.sw && s1.hw == s.hw
    requires forall x :: MsgExpire(x) in s.queue ==> MsgExpire(x) in s1.queue
    requires BoxOk(b, w) && TopFollowed(Get(s, w).box, SetPoll(b, prior), TopMoved(b.heap, prior))
    requires s.hand.Idle? || (s.hand.Expiring? && s.hand.wake == w && (TopMoved(b.heap, prior) || b.heap.Leaf?))
    ensures WakeupInv(StartArming(s1, w, b, prior))
  {
    assert HeapOk(s, w) && Watched(s, w) && HeapOk(s, !w) && Watched(s, !w);
    BothBoxes(StartArming(s1, w, b, prior), w);
  }

  lemma TakenStays(q: seq<Msg>)
    requires q != [] && !q[0].MsgExpire?
    ensures forall x :: MsgExpire(x) in q ==> MsgExpire(x) in q[1..]
  {
    assert q == [q[0]] + q[1..];
  }

  lemma PushMsgKeepsWakeup(s: State, now: Time)
    requires WakeupInv(s) && Enabled(s, Deliver(now)) && s.queue[0].MsgPush?
    ensures WakeupInv(Step(s, Deliver(now)))
  {
    var t := s.queue[0].timer;
    var b := Get(s, t.wake).box;
    assert HeapOk(s, t.wake);
    PushFollowsTop(b, t);
    TakenStays(s.queue);
    StartArmingKeepsWakeup(s, s.(queue := s.queue[1..]), t.wake, Pushed(b, t), Top(b.heap));
  }

  lemma RemoveMsgKeepsWakeup(s: State, now: Time)
    requires WakeupInv(s) && Enabled(s, Deliver(now)) && s.queue[0].MsgRemove?
    ensures WakeupInv(Step(s, Deliver(now)))
  {
    var t := s.queue[0].timer;
    var b := Get(s, t.wake).box;
    assert HeapOk(s, t.wake);
    RemoveFollowsTop(b, t);
    TakenStays(s.queue);
    var s1 := s.(queue := s.queue[1..]);
    StartArmingKeepsWakeup(s, s1, t.wake, Removed(b, t), TopAfterRemove(b, t));
    FreeKeepsWakeup(StartArming(s1, t.wake, Removed(b, t), TopAfterRemove(b, t)), t);
  }

  lemma FreeKeepsWakeup(s: State, t: Timer)
    requires WakeupInv(s)
    ensures WakeupInv(FreeDelegate(s, t))
  {
    var s' := FreeDelegate(s, t);
    assert s'.queue == s.queue && s'.sw == s.sw && s'.hw == s.hw && s'.hand == s.hand;
    forall w ensures HeapOk(s', w) && Watched(s', w) {
      assert HeapOk(s, w) && Watched(s, w);
    }
  }

  lemma ExpireMsgKeepsWakeup(s: State, now: Time)
    requires WakeupInv(s) && Enabled(s, Deliver(now)) && s.queue[0].MsgExpire?
    ensures WakeupInv(Step(s, Deliver(now)))
  {
    var w := s.queue[0].wake;
    var s' := Step(s, Deliver(now));
    assert s.queue == [MsgExpire(w)] + s'.queue;
    assert HeapOk(s, w) && Watched(s, w) && HeapOk(s, !w) && Watched(s, !w);
    if Heap(s, w).Node? { PopShrinks(Get(s, w).box, w); }
    BothBoxes(s', w);
  }

  lemma PopNextKeepsWakeup(s: State)
    requires WakeupInv(s) && Enabled(s, PopNext)
    ensures WakeupInv(Step(s, PopNext))
  {
    var w := s.hand.wake;
    var b := Get(s, w).box;
    assert HeapOk(s, w);
    if PopIfDue(b.heap, s.hand.now).1.Some? {
      assert Watched(s, w) && HeapOk(s, !w) && Watched(s, !w);
      PopShrinks(b, w);
      BothBoxes(Step(s, PopNext), w);
    } else {
      StartArmingKeepsWakeup(s, s, w, b, None);
    }
  }

  /** Between the two states messages were added, and no container was touched. */
  ghost predicate OnlySends(s: State, s': State) {
    && s.queue <= s'.queue && s'.sw == s.sw && s'.hw == s.hw
    && (s.hand.Expiring? ==> s'.hand.Expiring? && s'.hand.wake == s.hand.wake)
    && (!s.hand.Expiring? ==> s'.hand == s.hand)
  }

  lemma StopOnlySends(s: State, c: nat, byExpiry: bool)
    requires c in s.clients
    ensures OnlySends(s, StopClient(s, c, byExpiry)) && StopClient(s, c, byExpiry).hand == s.hand
  {
  }

  lemma ClientStepsOnlySend(s: State, a: Action)
    requires Enabled(s, a) && (a.NewClient? || a.Start? || a.Stop? || a.Destroy? || a.ReadClient? || a.Fire?)
    ensures OnlySends(s, Step(s, a))
  {
    forall c, e | c in s.clients { StopOnlySends(s, c, e); }
  }

  /** Client steps and expire() touch no container; they only add messages. */
  lemma ClientStepsKeepWakeup(s: State, a: Action)
    requires WakeupInv(s) && Enabled(s, a)
    requires a.NewClient? || a.Start? || a.Stop? || a.Destroy? || a.ReadClient? || a.Fire?
    ensures WakeupInv(Step(s, a))
  {
    ClientStepsOnlySend(s, a);
    OnlySendsKeepsWakeup(s, Step(s, a));
  }

  lemma OnlySendsKeepsWakeup(s: State, s': State)
    requires WakeupInv(s) && OnlySends(s, s')
    ensures WakeupInv(s')
  {
    forall w ensures HeapOk(s', w) && Watched(s', w) {
      assert HeapOk(s, w) && Watched(s, w);
    }
  }

  /** The poll thread may have disarmed and unpolled since addPoll; then an expiry is on its way. */
  lemma ArmKeepsWakeup(s: State)
    requires WakeupInv(s) && Enabled(s, Arm)
    ensures WakeupInv(Step(s, Arm))
  {
    var w := s.hand.wake;
    assert HeapOk(s, w) && Watched(s, w) && HeapOk(s, !w) && Watched(s, !w);
    BothBoxes(Step(s, Arm), w);
  }

  lemma PollStepsKeepWakeup(s: State, a: Action)
    requires WakeupInv(s) && Enabled(s, a)
    requires a.Wake? || a.Disarm? || a.Unpoll? || a.SendExpire?
    ensures WakeupInv(Step(s, a))
  {
    var s' := Step(s, a);
    forall w ensures HeapOk(s', w) && Watched(s', w) {
      assert HeapOk(s, w) && Watched(s, w);
    }
  }

  lemma StepKeepsWakeup(s: State, a: Action)
    requires WakeupInv(s) && Enabled(s, a)
    ensures WakeupInv(Step(s, a))
  {
    match a
    case Deliver(now) =>
      if s.queue[0].MsgPush? {
        PushMsgKeepsWakeup(s, now);
      } else if s.queue[0].MsgRemove? {
        RemoveMsgKeepsWakeup(s, now);
      } else {
        ExpireMsgKeepsWakeup(s, now);
      }
    case PopNext => PopNextKeepsWakeup(s);
    case Arm => ArmKeepsWakeup(s);
    case _ =>
      if a.Wake? || a.Disarm? || a.Unpoll? || a.SendExpire? {
        PollStepsKeepWakeup(s, a);
      } else {
        ClientStepsKeepWakeup(s, a);
      }
  }

  // ---------------------------------------------------------------- the steps and the procs

  /** updateSoonestTime in its two steps, if the poll thread does nothing in between, is that of the object. */
  lemma ArmingIsRearming(s: State, w: bool, b: Box, prior: Option<Timer>)
    ensures var s1 := StartArming(s, w, b, prior);
      && (s1.hand.Arming? <==> TopMoved(b.heap, prior))
      && (s1.hand.Arming? ==> s1.hand.wake == w)
      && Get(if s1.hand.Arming? then ArmStep(s1) else s1, w).box == Rearmed(b, prior)
  {
  }

  ghost predicate IsAfter(s1: State, w: bool, b: Box) {
    Get(if s1.hand.Arming? then ArmStep(s1) else s1, w).box == b
  }

  /** What the messages leave in a container is what the procs of the object leave there. */
  lemma MessagesAreProcs(s: State, now: Time)
    requires Enabled(s, Deliver(now)) && !s.queue[0].MsgExpire?
    ensures var t := s.queue[0].timer; var b := Get(s, t.wake).box;
      IsAfter(Step(s, Deliver(now)), t.wake, if s.queue[0].MsgPush? then AfterPush(b, t) else AfterRemove(b, t))
  {
    var t := s.queue[0].timer;
    var b := Get(s, t.wake).box;
    var s1 := s.(queue := s.queue[1..]);
    if s.queue[0].MsgPush? {
      ArmingIsRearming(s1, t.wake, Pushed(b, t), Top(b.heap));
    } else {
      ArmingIsRearming(s1, t.wake, Removed(b, t), TopAfterRemove(b, t));
    }
  }

  /** And so is what the end of an expiry leaves. */
  lemma ExpiryEndsAsProc(s: State)
    requires Enabled(s, PopNext) && !Step(s, PopNext).hand.Expiring?
    ensures IsAfter(Step(s, PopNext), s.hand.wake, Rearmed(Get(s, s.hand.wake).box, None))
  {
    ArmingIsRearming(s, s.hand.wake, Get(s, s.hand.wake).box, None);
  }

  /** In every state of every run: heaps are heaps, and no non-empty heap is left unwatched. */
  lemma {:induction false} NoLostWakeup(actions: seq<Action>, s: State)
    requires Runs(actions, s)
    ensures forall w :: HeapOk(s, w) && Watched(s, w)
  {
    if actions != [] {
      var n := |actions| - 1;
      var p: State :| Runs(actions[..n], p) && Enabled(p, actions[n]) && s == Step(p, actions[n]);
      NoLostWakeup(actions[..n], p);
      StepKeepsWakeup(p, actions[n]);
    }
  }
}
