/**
Lifetime of delegates and the accounting of starts, stops and callbacks: what every step of
the timer service keeps, and what therefore holds in every run.
*/
module TimerLifetime {
  import opened Options
  import opened HeapTree
  import opened TimerClock
  import opened TimerContainer
  import opened TimerService
  import opened TimerWakeup

  ghost predicate LifeInv(s: State) {
    && PushBeforeRemove(s.queue)
    && (forall t :: TimerOk(s, t))
    && (forall t :: TimerPastOk(s, t))
    && (forall c :: ClientOk(s, c))
  }

  // ---------------------------------------------------------------- the message queue

  lemma HeadAndTail(q: seq<Msg>, m: Msg)
    requires q != []
    ensures multiset(q)[m] == multiset(q[1..])[m] + if q[0] == m then 1 else 0
    ensures PushBeforeRemove(q) ==> PushBeforeRemove(q[1..])
  {
    assert q == [q[0]] + q[1..];
    if PushBeforeRemove(q) {
      forall i, j | 0 <= i < |q| - 1 && 0 <= j < |q| - 1
                    && q[1..][i].MsgRemove? && q[1..][j] == MsgPush(q[1..][i].timer)
        ensures j < i
      {
        assert q[i + 1].MsgRemove? && q[j + 1] == MsgPush(q[i + 1].timer);
      }
    }
  }

  lemma RemoveAtHeadMeansPushed(q: seq<Msg>, t: Timer)
    requires PushBeforeRemove(q) && q != [] && q[0] == MsgRemove(t)
    ensures multiset(q)[MsgPush(t)] == 0
  {
    assert q[0].MsgRemove?;
    forall j | 0 <= j < |q| ensures q[j] != MsgPush(t) {
      assert q[j] == MsgPush(q[0].timer) ==> j < 0;
    }
  }

  // ---------------------------------------------------------------- client steps

  lemma StartKeepsLife(s: State, c: nat, t: Timer)
    requires LifeInv(s) && c in s.clients && s.clients[c].None? && t.id == s.nextTimer
    ensures LifeInv(StartClient(s, c, t))
  {
    var s' := StartClient(s, c, t);
    assert TimerOk(s, t) && TimerPastOk(s, t) && ClientOk(s, c);
    assert MsgRemove(t) in s.queue <==> MsgRemove(t) in multiset(s.queue);
    forall z ensures TimerOk(s', z) && TimerPastOk(s', z) {
      assert TimerOk(s, z) && TimerPastOk(s, z);
    }
    forall d ensures ClientOk(s', d) {
      assert ClientOk(s, d);
    }
  }

  lemma StopKeepsLife(s: State, c: nat, byExpiry: bool)
    requires LifeInv(s) && c in s.clients
    ensures LifeInv(StopClient(s, c, byExpiry))
    ensures var s' := StopClient(s, c, byExpiry); c in s'.clients && s'.clients[c].None?
  {
    var s' := StopClient(s, c, byExpiry);
    assert ClientOk(s, c);
    forall z ensures TimerOk(s', z) && TimerPastOk(s', z) {
      assert TimerOk(s, z) && TimerPastOk(s, z);
    }
    forall d ensures ClientOk(s', d) {
      assert ClientOk(s, d);
    }
  }

  lemma ForgetKeepsLife(s: State, c: nat)
    requires LifeInv(s) && c in s.clients && s.clients[c].None?
    ensures LifeInv(s.(clients := s.clients - {c}, locks := Dropped(s.locks, c)))
  {
    var s' := s.(clients := s.clients - {c}, locks := Dropped(s.locks, c));
    forall z ensures TimerOk(s', z) && TimerPastOk(s', z) {
      assert TimerOk(s, z) && TimerPastOk(s, z);
    }
    forall d ensures ClientOk(s', d) {
      assert ClientOk(s, d);
    }
  }

  lemma NewClientKeepsLife(s: State)
    requires LifeInv(s)
    ensures LifeInv(Step(s, NewClient))
  {
    var s' := Step(s, NewClient);
    assert ClientOk(s, s.nextClient);
    forall z ensures TimerOk(s', z) && TimerPastOk(s', z) {
      assert TimerOk(s, z) && TimerPastOk(s, z);
    }
    forall d ensures ClientOk(s', d) {
      assert ClientOk(s, d);
    }
  }

  // ---------------------------------------------------------------- message thread steps

  ghost predicate SameObjects(s: State, s': State) {
    && s'.delegates == s.delegates && s'.clients == s.clients && s'.past == s.past
    && s'.nextTimer == s.nextTimer && s'.nextClient == s.nextClient
  }

  /** A step that changes where timers are, but keeps each in as many places as before. */
  lemma MoveKeepsLife(s: State, s': State)
    requires LifeInv(s) && PushBeforeRemove(s'.queue) && SameObjects(s, s')
    requires forall t :: Places(s', t) == Places(s, t) && Removes(s', t) == Removes(s, t)
    ensures LifeInv(s')
  {
    forall z ensures TimerOk(s', z) && TimerPastOk(s', z) {
      assert TimerOk(s, z) && TimerPastOk(s, z);
    }
    forall d ensures ClientOk(s', d) {
      assert ClientOk(s, d);
    }
  }

  /** Where the message thread has a timer: in a heap, or in its hand. */
  ghost function Inside(s: State, z: Timer): nat { Occ(Heap(s, z.wake), z) + Held(s, z) }

  /** Taking the message at the head changes no other counts. */
  lemma TakenCounts(s: State, s': State, z: Timer)
    requires s.queue != [] && s'.queue == s.queue[1..]
    ensures Pushes(s, z) == Pushes(s', z) + (if s.queue[0] == MsgPush(z) then 1 else 0)
    ensures Removes(s, z) == Removes(s', z) + (if s.queue[0] == MsgRemove(z) then 1 else 0)
  {
    HeadAndTail(s.queue, MsgPush(z));
    HeadAndTail(s.queue, MsgRemove(z));
  }

  lemma PushMovesInside(s: State, now: Time, z: Timer)
    requires Enabled(s, Deliver(now)) && s.queue[0].MsgPush?
    ensures Inside(Step(s, Deliver(now)), z) == Inside(s, z) + Is(s.queue[0].timer, z)
  {
    var t := s.queue[0].timer;
    PushAddsOne(TimerRanks, Heap(s, t.wake), t, z);
    assert Heap(Step(s, Deliver(now)), !t.wake) == Heap(s, !t.wake);
  }

  lemma PushMovesOne(s: State, now: Time, z: Timer)
    requires Enabled(s, Deliver(now)) && s.queue[0].MsgPush?
    ensures var s' := Step(s, Deliver(now)); Places(s', z) == Places(s, z) && Removes(s', z) == Removes(s, z)
  {
    TakenCounts(s, Step(s, Deliver(now)), z);
    PushMovesInside(s, now, z);
  }

  lemma PushMoves(s: State, now: Time)
    requires LifeInv(s) && Enabled(s, Deliver(now)) && s.queue[0].MsgPush?
    ensures LifeInv(Step(s, Deliver(now)))
  {
    forall z { PushMovesOne(s, now, z); }
    HeadAndTail(s.queue, s.queue[0]);
    MoveKeepsLife(s, Step(s, Deliver(now)));
  }

  lemma ExpireMovesInside(s: State, now: Time, z: Timer)
    requires Enabled(s, Deliver(now)) && s.queue[0].MsgExpire? && HeapOk(s, s.queue[0].wake)
    ensures Inside(Step(s, Deliver(now)), z) == Inside(s, z)
  {
    var w := s.queue[0].wake;
    if Heap(s, w).Node? {
      PopMovesTop(s, w, z);
    }
    assert Heap(Step(s, Deliver(now)), !w) == Heap(s, !w);
  }

  lemma ExpireMovesOne(s: State, now: Time, z: Timer)
    requires Enabled(s, Deliver(now)) && s.queue[0].MsgExpire? && HeapOk(s, s.queue[0].wake)
    ensures var s' := Step(s, Deliver(now)); Places(s', z) == Places(s, z) && Removes(s', z) == Removes(s, z)
  {
    TakenCounts(s, Step(s, Deliver(now)), z);
    ExpireMovesInside(s, now, z);
  }

  lemma ExpireMoves(s: State, now: Time)
    requires LifeInv(s) && WakeupInv(s) && Enabled(s, Deliver(now)) && s.queue[0].MsgExpire?
    ensures LifeInv(Step(s, Deliver(now)))
  {
    assert HeapOk(s, s.queue[0].wake);
    forall z { ExpireMovesOne(s, now, z); }
    HeadAndTail(s.queue, s.queue[0]);
    MoveKeepsLife(s, Step(s, Deliver(now)));
  }

  lemma PopMovesTop(s: State, w: bool, z: Timer)
    requires HeapOk(s, w) && Heap(s, w).Node?
    ensures var (h, t) := Pop(TimerRanks, Heap(s, w));
            && Occ(Heap(s, w), z) == Occ(h, z) + Is(t, z)
            && t.wake == w
  {
    PopRemovesOne(TimerRanks, Heap(s, w), z);
    PopTakesTop(TimerRanks, Heap(s, w));
    assert Contains(Heap(s, w), Heap(s, w).data);
  }

  lemma PopNextMoves(s: State, z: Timer)
    requires Enabled(s, PopNext) && HeapOk(s, s.hand.wake)
    ensures Inside(Step(s, PopNext), z) == Inside(s, z)
  {
    var w := s.hand.wake;
    var (h, popped) := PopIfDue(Heap(s, w), s.hand.now);
    if popped.Some? {
      PopMovesTop(s, w, z);
      assert Heap(Step(s, PopNext), w) == h;
      assert Heap(Step(s, PopNext), !w) == Heap(s, !w);
    }
  }

  lemma PopNextKeepsLife(s: State)
    requires LifeInv(s) && WakeupInv(s) && Enabled(s, PopNext)
    ensures LifeInv(Step(s, PopNext))
  {
    assert HeapOk(s, s.hand.wake);
    forall z { PopNextMoves(s, z); }
    SameInsideKeepsLife(s, Step(s, PopNext));
  }

  /** When a remove message is taken, its delegate is in no queue, heap or hand afterwards. */
  lemma RemoveClears(s: State, now: Time, z: Timer)
    requires LifeInv(s) && Enabled(s, Deliver(now)) && s.queue[0].MsgRemove?
    requires HeapOk(s, s.queue[0].timer.wake)
    ensures var (s', t) := (Step(s, Deliver(now)), s.queue[0].timer);
            && Places(s', z) == (if z == t then 0 else Places(s, z))
            && Removes(s', z) == (if z == t then 0 else Removes(s, z))
  {
    var t := s.queue[0].timer;
    assert TimerOk(s, t);
    TakenCounts(s, Step(s, Deliver(now)), z);
    RemoveAtHeadMeansPushed(s.queue, t);
    RemoveMovesInside(s, now, z);
  }

  lemma RemoveMovesInside(s: State, now: Time, z: Timer)
    requires Enabled(s, Deliver(now)) && s.queue[0].MsgRemove? && HeapOk(s, s.queue[0].timer.wake)
    ensures var t := s.queue[0].timer;
      Inside(Step(s, Deliver(now)), z) == Inside(s, z) - if Contains(Heap(s, t.wake), t) then Is(t, z) else 0
  {
    var t := s.queue[0].timer;
    RemovedOnce(s, t, z);
    assert Heap(Step(s, Deliver(now)), t.wake) == Remove(TimerRanks, Heap(s, t.wake), t).0;
  }

  /** What else a remove message changes: its delegate, detached before, is gone. */
  lemma RemoveFrees(s: State, now: Time)
    requires LifeInv(s) && Enabled(s, Deliver(now)) && s.queue[0].MsgRemove?
    ensures var (s', t) := (Step(s, Deliver(now)), s.queue[0].timer);
            && t in s.delegates && !Attached(s, t)
            && s'.delegates == s.delegates - {t} && s'.queue == s.queue[1..]
            && s'.clients == s.clients && s'.nextTimer == s.nextTimer && s'.nextClient == s.nextClient
            && s'.past == s.past.(freed := s.past.freed + multiset{t})
  {
    var t := s.queue[0].timer;
    assert TimerOk(s, t);
    HeadAndTail(s.queue, MsgRemove(t));
  }

  lemma RemoveKeepsTimer(s: State, now: Time, z: Timer)
    requires LifeInv(s) && Enabled(s, Deliver(now)) && s.queue[0].MsgRemove?
    requires HeapOk(s, s.queue[0].timer.wake)
    ensures TimerOk(Step(s, Deliver(now)), z)
  {
    assert TimerOk(s, z);
    RemoveClears(s, now, z);
    RemoveFrees(s, now);
  }

  lemma RemoveKeepsTimerPast(s: State, now: Time, z: Timer)
    requires LifeInv(s) && Enabled(s, Deliver(now)) && s.queue[0].MsgRemove?
    ensures TimerPastOk(Step(s, Deliver(now)), z)
  {
    assert TimerPastOk(s, z);
    RemoveFrees(s, now);
  }

  lemma RemoveKeepsClient(s: State, now: Time, d: nat)
    requires LifeInv(s) && Enabled(s, Deliver(now)) && s.queue[0].MsgRemove?
    ensures ClientOk(Step(s, Deliver(now)), d)
  {
    assert ClientOk(s, d);
    RemoveFrees(s, now);
  }

  lemma RemoveKeepsLife(s: State, now: Time)
    requires LifeInv(s) && WakeupInv(s) && Enabled(s, Deliver(now)) && s.queue[0].MsgRemove?
    ensures LifeInv(Step(s, Deliver(now)))
  {
    assert HeapOk(s, s.queue[0].timer.wake);
    HeadAndTail(s.queue, s.queue[0]);
    RemoveFrees(s, now);
    forall z { RemoveKeepsTimer(s, now, z); }
    forall z { RemoveKeepsTimerPast(s, now, z); }
    forall d { RemoveKeepsClient(s, now, d); }
  }

  lemma {:induction false} RemovedOnce(s: State, t: Timer, z: Timer)
    requires HeapOk(s, t.wake)
    ensures var h := Heap(s, t.wake);
            Occ(Remove(TimerRanks, h, t).0, z) == Occ(h, z) - if Contains(h, t) then Is(t, z) else 0
  {
    TimerRanksIsTotal();
    var h := Heap(s, t.wake);
    RemoveIsComplete(TimerRanks, h, t);
    if Contains(h, t) {
      RemoveTakesOne(TimerRanks, h, t, z);
    } else {
      RemoveMissChangesNothing(TimerRanks, h, t);
    }
  }

  /** stop() on the client that was read: whatever it stops, the popped delegate does not run afterwards. */
  lemma FireKeepsLife(s: State)
    requires LifeInv(s) && HandOk(s) && Enabled(s, Fire)
    ensures LifeInv(Step(s, Fire))
  {
    var t, client := s.hand.popped.value, s.hand.caller.client;
    assert TimerOk(s, t);
    if client.Some? && client.value in s.clients {
      StopKeepsLife(s, client.value, true);
      StopDetaches(s, client.value, true, t);
    }
    LetGoKeepsLife(FireStep(s, client));
  }

  /** A stop detaches the timer that runs for the client, and attaches none. */
  lemma StopDetaches(s: State, c: nat, byExpiry: bool, t: Timer)
    requires LifeInv(s) && c in s.clients
    ensures var s' := StopClient(s, c, byExpiry);
      Attached(s', t) <==> Attached(s, t) && s.delegates[t].owner != c
  {
    assert TimerOk(s, t) && ClientOk(s, c);
  }

  lemma LetGoKeepsLife(s: State)
    requires LifeInv(s) && s.hand.Expiring? && s.hand.popped.Some? && !Attached(s, s.hand.popped.value)
    ensures LifeInv(s.(hand := s.hand.(popped := None, caller := Unread)))
  {
    var s' := s.(hand := s.hand.(popped := None, caller := Unread));
    forall z ensures TimerOk(s', z) && TimerPastOk(s', z) {
      assert TimerOk(s, z) && TimerPastOk(s, z);
    }
    forall d ensures ClientOk(s', d) {
      assert ClientOk(s, d);
    }
  }

  // ---------------------------------------------------------------- the client that was read

  lemma ReadKeepsHand(s: State)
    requires LifeInv(s) && Enabled(s, ReadClient)
    ensures HandOk(Step(s, ReadClient))
  {
    assert TimerOk(s, s.hand.popped.value);
  }

  lemma StopKeepsHand(s: State, c: nat)
    requires LifeInv(s) && HandOk(s) && c in s.clients
    ensures HandOk(StopClient(s, c, false))
  {
    if s.hand.Expiring? && s.hand.popped.Some? {
      var t := s.hand.popped.value;
      assert TimerOk(s, t) && ClientOk(s, c);
      StopDetaches(s, c, false, t);
      StopCountsOnce(s, c);
      if Attached(s, t) && s.delegates[t].owner == c { assert Running(s, c); }
    }
  }

  lemma StopCountsOnce(s: State, c: nat)
    requires c in s.clients
    ensures var s' := StopClient(s, c, false);
      && s'.hand == s.hand && s'.delegates.Keys == s.delegates.Keys
      && (forall t :: t in s.delegates ==> s'.delegates[t].owner == s.delegates[t].owner)
      && s'.past.stops == s.past.stops + if Running(s, c) then multiset{c} else multiset{}
  {
  }

  lemma StartKeepsHand(s: State, c: nat, t: Timer)
    requires LifeInv(s) && HandOk(s) && c in s.clients && t.id == s.nextTimer
    ensures HandOk(StartClient(s, c, t))
  {
    assert TimerOk(s, t);
    if s.hand.Expiring? && s.hand.popped.Some? {
      var p := s.hand.popped.value;
      assert TimerOk(s, p);
    }
  }

  lemma ForgetKeepsHand(s: State, c: nat)
    requires HandOk(s)
    ensures HandOk(s.(clients := s.clients - {c}, locks := Dropped(s.locks, c)))
  {
  }

  /** No other step changes the delegates or the stops of clients while the loop has a timer in hand. */
  lemma OtherStepsKeepHand(s: State, a: Action)
    requires HandOk(s) && Enabled(s, a)
    requires !a.ReadClient? && !a.Start? && !a.Stop? && !a.Destroy?
    ensures HandOk(Step(s, a))
  {
  }

  lemma StepKeepsHand(s: State, a: Action)
    requires LifeInv(s) && HandOk(s) && Enabled(s, a)
    ensures HandOk(Step(s, a))
  {
    match a
    case ReadClient => ReadKeepsHand(s);
    case Start(c, now, ms, w) =>
      if s.clients[c].None? { StartKeepsHand(s, c, Timer(s.nextTimer, FutureTime(now, ms), w)); }
    case Stop(c) => StopKeepsHand(s, c);
    case Destroy(c) =>
      StopKeepsHand(s, c);
      ForgetKeepsHand(StopClient(s, c, false), c);
    case _ => OtherStepsKeepHand(s, a);
  }

  // ---------------------------------------------------------------- all steps, all runs

  lemma SendExpireKeepsLife(s: State, w: bool)
    requires LifeInv(s) && Enabled(s, SendExpire(w))
    ensures LifeInv(Step(s, SendExpire(w)))
  {
    MoveKeepsLife(s, Step(s, SendExpire(w)));
  }

  lemma OtherStepsMoveNothing(s: State, a: Action)
    requires Enabled(s, a) && (a.Wake? || a.Disarm? || a.Unpoll? || a.Arm? || a.ReadClient?)
    ensures var s' := Step(s, a); SameObjects(s, s') && s'.queue == s.queue && forall z :: Inside(s', z) == Inside(s, z)
  {
    var s' := Step(s, a);
    forall z ensures Inside(s', z) == Inside(s, z) {
      assert Heap(s', z.wake) == Heap(s, z.wake);
    }
  }

  lemma OtherStepsKeepLife(s: State, a: Action)
    requires LifeInv(s) && Enabled(s, a) && (a.Wake? || a.Disarm? || a.Unpoll? || a.Arm? || a.ReadClient?)
    ensures LifeInv(Step(s, a))
  {
    OtherStepsMoveNothing(s, a);
    SameInsideKeepsLife(s, Step(s, a));
  }

  lemma SameInsideKeepsLife(s: State, s': State)
    requires LifeInv(s) && SameObjects(s, s') && s'.queue == s.queue && forall z :: Inside(s', z) == Inside(s, z)
    ensures LifeInv(s')
  {
    forall z ensures Places(s', z) == Places(s, z) {
      assert Inside(s', z) == Inside(s, z);
    }
    MoveKeepsLife(s, s');
  }

  lemma StepKeepsLife(s: State, a: Action)
    requires LifeInv(s) && WakeupInv(s) && HandOk(s) && Enabled(s, a)
    ensures LifeInv(Step(s, a))
  {
    match a
    case NewClient => NewClientKeepsLife(s);
    case Start(c, now, ms, w) =>
      if s.clients[c].None? {
        StartKeepsLife(s, c, Timer(s.nextTimer, FutureTime(now, ms), w));
      }
    case Stop(c) => StopKeepsLife(s, c, false);
    case Destroy(c) =>
      StopKeepsLife(s, c, false);
      ForgetKeepsLife(StopClient(s, c, false), c);
    case Deliver(now) =>
      if s.queue[0].MsgPush? {
        PushMoves(s, now);
      } else if s.queue[0].MsgRemove? {
        RemoveKeepsLife(s, now);
      } else {
        ExpireMoves(s, now);
      }
    case Fire => FireKeepsLife(s);
    case PopNext => PopNextKeepsLife(s);
    case SendExpire(w) => SendExpireKeepsLife(s, w);
    case _ => OtherStepsKeepLife(s, a);
  }

  lemma {:induction false} RunsKeepLife(actions: seq<Action>, s: State)
    requires Runs(actions, s)
    ensures LifeInv(s) && WakeupInv(s) && HandOk(s)
  {
    NoLostWakeup(actions, s);
    if actions != [] {
      var n := |actions| - 1;
      var p: State :| Runs(actions[..n], p) && Enabled(p, actions[n]) && s == Step(p, actions[n]);
      RunsKeepLife(actions[..n], p);
      StepKeepsLife(p, actions[n]);
      StepKeepsHand(p, actions[n]);
    }
  }
}
