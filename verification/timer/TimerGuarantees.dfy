/** What clients and the memory allocator may rely on, in every state of every run. */
module TimerGuarantees {
  import opened Options
  import opened HeapTree
  import opened TimerClock
  import opened TimerContainer
  import opened TimerService
  import opened TimerWakeup
  import opened TimerLifetime

  // ---------------------------------------------------------------- the shared locks

  ghost predicate LockInv(s: State) { forall c :: LockOk(s, c) }

  lemma SameOwners(s: State, s': State, c: nat)
    requires s'.delegates.Keys == s.delegates.Keys
    requires forall t :: t in s.delegates ==> s'.delegates[t].owner == s.delegates[t].owner
    ensures Owned(s', c) == Owned(s, c)
  {
  }

  /** Steps that only move timers, or detach them, leave all counts as they are. */
  lemma SameOwnersKeepLocks(s: State, s': State)
    requires LockInv(s) && s'.clients.Keys == s.clients.Keys && s'.locks == s.locks && s'.nextClient == s.nextClient
    requires s'.delegates.Keys == s.delegates.Keys
    requires forall t :: t in s.delegates ==> s'.delegates[t].owner == s.delegates[t].owner
    ensures LockInv(s')
  {
    forall c ensures LockOk(s', c) {
      assert LockOk(s, c);
      SameOwners(s, s', c);
    }
  }

  lemma StartKeepsLocks(s: State, c: nat, t: Timer)
    requires LockInv(s) && c in s.clients && t !in s.delegates
    ensures LockInv(StartClient(s, c, t))
  {
    var s' := StartClient(s, c, t);
    forall d ensures LockOk(s', d) {
      assert LockOk(s, d);
      OwnedAfterStart(s, c, t, d);
    }
  }

  lemma OwnedAfterStart(s: State, c: nat, t: Timer, d: nat)
    requires c in s.clients && t !in s.delegates
    ensures t !in Owned(s, d)
    ensures Owned(StartClient(s, c, t), d) == if d == c then Owned(s, c) + {t} else Owned(s, d)
  {
  }

  lemma StopKeepsLocks(s: State, c: nat, byExpiry: bool)
    requires LockInv(s) && c in s.clients
    ensures LockInv(StopClient(s, c, byExpiry))
  {
    SameOwnersKeepLocks(s, StopClient(s, c, byExpiry));
  }

  lemma ForgetKeepsLocks(s: State, c: nat)
    requires LockInv(s) && c in s.clients
    ensures LockInv(s.(clients := s.clients - {c}, locks := Dropped(s.locks, c)))
  {
    var s' := s.(clients := s.clients - {c}, locks := Dropped(s.locks, c));
    forall d ensures LockOk(s', d) {
      assert LockOk(s, d);
      SameOwners(s, s', d);
    }
  }

  lemma FreeKeepsLocks(s: State, t: Timer)
    requires LockInv(s)
    ensures LockInv(FreeDelegate(s, t))
  {
    if t in s.delegates {
      var s' := FreeDelegate(s, t);
      var c := s.delegates[t].owner;
      forall d ensures LockOk(s', d) {
        assert LockOk(s, d);
        assert Owned(s', d) == Owned(s, d) - {t};
        assert t in Owned(s, d) <==> d == c;
      }
    }
  }

  lemma NewClientKeepsLocks(s: State)
    requires LockInv(s)
    ensures LockInv(Step(s, NewClient))
  {
    var s' := Step(s, NewClient);
    forall d ensures LockOk(s', d) {
      assert LockOk(s, d) && LockOk(s, s.nextClient);
      SameOwners(s, s', d);
    }
  }

  lemma DeliverKeepsLocks(s: State, now: Time)
    requires LockInv(s) && s.queue != []
    ensures LockInv(DeliverStep(s, now))
  {
    match s.queue[0]
    case MsgRemove(t) =>
      var b := Get(s, t.wake).box;
      var s1 := StartArming(s.(queue := s.queue[1..]), t.wake, Removed(b, t), TopAfterRemove(b, t));
      SameOwnersKeepLocks(s, s1);
      FreeKeepsLocks(s1, t);
    case _ => SameOwnersKeepLocks(s, DeliverStep(s, now));
  }

  lemma FireKeepsLocks(s: State)
    requires LockInv(s) && Enabled(s, Fire)
    ensures LockInv(Step(s, Fire))
  {
    var s1 := FireStep(s, s.hand.caller.client);
    SameOwnersKeepLocks(s, s1);
    SameOwnersKeepLocks(s1, Step(s, Fire));
  }

  lemma OtherStepsKeepLocks(s: State, a: Action)
    requires LockInv(s) && Enabled(s, a)
    requires a.ReadClient? || a.PopNext? || a.Arm? || a.Wake? || a.Disarm? || a.Unpoll? || a.SendExpire?
    ensures LockInv(Step(s, a))
  {
    SameOwnersKeepLocks(s, Step(s, a));
  }

  lemma NextTimerIsNew(s: State, t: Timer)
    requires LifeInv(s) && t.id == s.nextTimer
    ensures t !in s.delegates
  {
    assert TimerOk(s, t);
  }

  lemma StepKeepsLocks(s: State, a: Action)
    requires LockInv(s) && LifeInv(s) && Enabled(s, a)
    ensures LockInv(Step(s, a))
  {
    match a
    case NewClient => NewClientKeepsLocks(s);
    case Start(c, now, ms, w) =>
      var t := Timer(s.nextTimer, FutureTime(now, ms), w);
      NextTimerIsNew(s, t);
      if s.clients[c].None? { StartKeepsLocks(s, c, t); }
    case Stop(c) => StopKeepsLocks(s, c, false);
    case Destroy(c) =>
      StopKeepsLocks(s, c, false);
      ForgetKeepsLocks(StopClient(s, c, false), c);
    case Deliver(now) => DeliverKeepsLocks(s, now);
    case Fire => FireKeepsLocks(s);
    case _ => OtherStepsKeepLocks(s, a);
  }

  lemma {:induction false} RunsKeepLocks(actions: seq<Action>, s: State)
    requires Runs(actions, s)
    ensures LockInv(s)
  {
    if actions != [] {
      var n := |actions| - 1;
      var p: State :| Runs(actions[..n], p) && Enabled(p, actions[n]) && s == Step(p, actions[n]);
      RunsKeepLife(actions[..n], p);
      RunsKeepLocks(actions[..n], p);
      StepKeepsLocks(p, actions[n]);
    }
  }

  // ---------------------------------------------------------------- theorems about runs

  /** A lock is there exactly as long as its LocTimer or a delegate that shares it, and counts them. */
  lemma {:induction false} LockCountsItsUsers(actions: seq<Action>, s: State, c: nat)
    requires Runs(actions, s)
    ensures c in s.locks <==> c in s.clients || Owned(s, c) != {}
    ensures c in s.locks ==> s.locks[c] == |Owned(s, c)| + if c in s.clients then 1 else 0
  {
    RunsKeepLocks(actions, s);
    assert LockOk(s, c);
  }

  /** Every successful start has been answered by one stop or one callback, or still runs. */
  lemma {:induction false} StartsAreAnswered(actions: seq<Action>, s: State, c: nat)
    requires Runs(actions, s)
    ensures s.past.starts[c] == s.past.stops[c] + s.past.callbacks[c] + if Running(s, c) then 1 else 0
  {
    RunsKeepLife(actions, s);
    assert ClientOk(s, c);
  }

  /** What LocTimer::stop of client d counts for client c. */
  lemma StopCounts(s: State, d: nat, byExpiry: bool, c: nat)
    requires d in s.clients
    ensures var s' := StopClient(s, d, byExpiry); var n := if c == d && Running(s, c) then 1 else 0;
      && s'.past.starts == s.past.starts
      && s'.past.stops[c] == s.past.stops[c] + (if byExpiry then 0 else n)
      && s'.past.callbacks[c] == s.past.callbacks[c] + (if byExpiry then n else 0)
  {
  }

  /** The counts of a client in the two states differ by so many starts, stops and callbacks. */
  ghost predicate Counted(p: Past, p': Past, c: nat, starts: nat, stops: nat, callbacks: nat) {
    && p'.starts[c] == p.starts[c] + starts
    && p'.stops[c] == p.stops[c] + stops
    && p'.callbacks[c] == p.callbacks[c] + callbacks
  }

  ghost predicate SameAnswers(p: Past, p': Past) {
    p'.starts == p.starts && p'.stops == p.stops && p'.callbacks == p.callbacks
  }

  lemma StartArmingCountsNothing(s: State, w: bool, b: Box, prior: Option<Timer>)
    ensures StartArming(s, w, b, prior).past == s.past
  {
  }

  lemma RemoveCountsNothing(s: State, now: Time)
    requires s.queue != [] && s.queue[0].MsgRemove?
    ensures SameAnswers(s.past, DeliverStep(s, now).past)
  {
    var t := s.queue[0].timer;
    var b := Get(s, t.wake).box;
    StartArmingCountsNothing(s.(queue := s.queue[1..]), t.wake, Removed(b, t), TopAfterRemove(b, t));
  }

  lemma DeliverCountsNothing(s: State, now: Time)
    requires s.queue != []
    ensures SameAnswers(s.past, DeliverStep(s, now).past)
  {
    match s.queue[0]
    case MsgRemove(_) => RemoveCountsNothing(s, now);
    case MsgPush(t) =>
      var b := Get(s, t.wake).box;
      StartArmingCountsNothing(s.(queue := s.queue[1..]), t.wake, Pushed(b, t), Top(b.heap));
    case MsgExpire(_) =>
  }

  lemma MessageStepsCountNothing(s: State, a: Action)
    requires Enabled(s, a) && (a.NewClient? || a.ReadClient? || a.PopNext? || a.Arm?)
    ensures SameAnswers(s.past, Step(s, a).past)
  {
  }

  lemma PollStepsCountNothing(s: State, a: Action)
    requires Enabled(s, a) && (a.Wake? || a.Disarm? || a.Unpoll? || a.SendExpire?)
    ensures SameAnswers(s.past, Step(s, a).past)
  {
  }

  lemma StartCounts(s: State, a: Action, c: nat)
    requires Enabled(s, a) && a.Start?
    ensures Counted(s.past, Step(s, a).past, c, if a.c == c && !Running(s, c) then 1 else 0, 0, 0)
  {
  }

  lemma ClientStopCounts(s: State, a: Action, c: nat)
    requires Enabled(s, a) && (a.Stop? || a.Destroy?)
    ensures Counted(s.past, Step(s, a).past, c, 0, if a.c == c && Running(s, c) then 1 else 0, 0)
  {
    StopCounts(s, a.c, false, c);
  }

  /**
  Exactly which step counts as what: a start succeeds iff the timer was not running, a stop iff it
  was, and a callback is made only by expire(), to the client it has read, if that has a timer running.
  */
  lemma {:induction false} StepsAnswerExactly(s: State, a: Action, c: nat)
    requires Enabled(s, a)
    ensures Counted(s.past, Step(s, a).past, c,
                    if a.Start? && a.c == c && !Running(s, c) then 1 else 0,
                    if (a == Stop(c) || a == Destroy(c)) && Running(s, c) then 1 else 0,
                    if a.Fire? && s.hand.caller.client == Some(c) && Running(s, c) then 1 else 0)
  {
    match a
    case Start(_, _, _, _) => StartCounts(s, a, c);
    case Stop(_) => ClientStopCounts(s, a, c);
    case Destroy(_) => ClientStopCounts(s, a, c);
    case Deliver(now) => DeliverCountsNothing(s, now);
    case Fire => FireCounts(s, c);
    case _ =>
      if a.NewClient? || a.ReadClient? || a.PopNext? || a.Arm? {
        MessageStepsCountNothing(s, a);
      } else {
        PollStepsCountNothing(s, a);
      }
  }

  lemma FireCounts(s: State, c: nat)
    requires Enabled(s, Fire)
    ensures Counted(s.past, Step(s, Fire).past, c, 0, 0,
                    if s.hand.caller.client == Some(c) && Running(s, c) then 1 else 0)
  {
    var client := s.hand.caller.client;
    if client.Some? && client.value in s.clients {
      StopCounts(s, client.value, true, c);
    }
  }

  /**
  expire() reads the client without its lock. The callback it then makes is for the timer that was
  popped exactly if the client has not been stopped since; and only then is the client sure to live.
  */
  lemma {:induction false} CallbackIsForPoppedIff(actions: seq<Action>, s: State, c: nat)
    requires Runs(actions, s) && Enabled(s, Fire) && s.hand.caller.client == Some(c)
    ensures s.hand.caller.stops <= s.past.stops[c]
    ensures Running(s, c) && s.clients[c] == s.hand.popped <==> s.past.stops[c] == s.hand.caller.stops
    ensures c !in s.clients ==> s.past.stops[c] > s.hand.caller.stops
  {
    RunsKeepLife(actions, s);
    var t := s.hand.popped.value;
    assert TimerOk(s, t) && ClientOk(s, c);
  }

  /** What was read is none, or the client that owns the popped delegate, which is still allocated. */
  lemma {:induction false} ReadIsOwner(actions: seq<Action>, s: State)
    requires Runs(actions, s) && Enabled(s, Fire)
    ensures s.hand.popped.value in s.delegates
    ensures s.hand.caller.client.Some? ==> s.delegates[s.hand.popped.value].owner == s.hand.caller.client.value
  {
    RunsKeepLife(actions, s);
    assert TimerOk(s, s.hand.popped.value);
  }

  /** A client that stops and starts in between gets the callback, and its new timer is stopped. */
  lemma {:induction false} StoppedAndStartedInBetween(actions: seq<Action>, s: State, c: nat, now: Time, ms: nat,
                                                      w: bool)
    requires Runs(actions, s) && Enabled(s, Fire) && s.hand.caller.client == Some(c)
    requires Running(s, c) && ms < TWO_32 && InWindow(FutureTime(now, ms))
    ensures var s1 := Step(s, Stop(c));
      && Enabled(s1, Start(c, now, ms, w))
      && var s2 := Step(s1, Start(c, now, ms, w));
      && Enabled(s2, Fire) && Running(s2, c) && s2.clients[c] != s2.hand.popped
      && var s3 := Step(s2, Fire);
      && s3.past.callbacks[c] == s2.past.callbacks[c] + 1 && !Running(s3, c)
  {
    RunsKeepLife(actions, s);
    var s1 := Step(s, Stop(c));
    var t := Timer(s1.nextTimer, FutureTime(now, ms), w);
    assert ClientOk(s, c) && TimerOk(s, s.hand.popped.value) && TimerOk(s, t);
    assert s1.clients[c].None? && s1.hand == s.hand && s1.nextTimer == s.nextTimer;
    var s2 := Step(s1, Start(c, now, ms, w));
    assert s2.clients[c] == Some(t) && s2.hand == s.hand;
    StopCounts(s2, c, true, c);
  }

  /** A live delegate's mClient is a live client, and the one whose lock it shares. */
  lemma {:induction false} ClientOfDelegateLives(actions: seq<Action>, s: State, t: Timer)
    requires Runs(actions, s) && t in s.delegates && s.delegates[t].client.Some?
    ensures s.delegates[t].client.value in s.clients && s.delegates[t].client.value == s.delegates[t].owner
    ensures s.clients[s.delegates[t].owner] == Some(t)
  {
    RunsKeepLife(actions, s);
    assert TimerOk(s, t);
  }

  /** Pushed once, at most one remove message and one free, and only in that order. */
  lemma {:induction false} DelegateLifetime(actions: seq<Action>, s: State, t: Timer)
    requires Runs(actions, s)
    ensures s.past.freed[t] <= s.past.removeSent[t] <= s.past.pushSent[t] <= 1
    ensures t in s.delegates <==> s.past.pushSent[t] == 1 && s.past.freed[t] == 0
    ensures s.past.freed[t] == 1 ==>
              MsgPush(t) !in s.queue && MsgRemove(t) !in s.queue && !Contains(Heap(s, t.wake), t) && Held(s, t) == 0
    ensures forall i, j :: 0 <= i < |s.queue| && 0 <= j < |s.queue| ==>
              s.queue[i] == MsgRemove(t) && s.queue[j] == MsgPush(t) ==> j < i
  {
    RunsKeepLife(actions, s);
    assert TimerOk(s, t) && TimerPastOk(s, t);
    assert MsgPush(t) in s.queue ==> MsgPush(t) in multiset(s.queue);
    assert MsgRemove(t) in s.queue ==> MsgRemove(t) in multiset(s.queue);
  }

  /** No pointer the service keeps dangles: what it can reach is live. */
  lemma {:induction false} NoDanglingPointer(actions: seq<Action>, s: State, t: Timer)
    requires Runs(actions, s)
    requires MsgPush(t) in s.queue || MsgRemove(t) in s.queue || Held(s, t) == 1
          || (exists w :: Contains(Heap(s, w), t)) || (exists c :: c in s.clients && s.clients[c] == Some(t))
    ensures t in s.delegates
  {
    RunsKeepLife(actions, s);
    assert TimerOk(s, t);
    if MsgPush(t) in s.queue { assert MsgPush(t) in multiset(s.queue); }
    if MsgRemove(t) in s.queue { assert MsgRemove(t) in multiset(s.queue); }
    if w :| Contains(Heap(s, w), t) { assert HeapOk(s, w); }
    if c :| c in s.clients && s.clients[c] == Some(t) { assert ClientOk(s, c); }
  }

  /** Nothing leaks: a live delegate is its client's running timer, or will be removed. */
  lemma {:induction false} NoLeak(actions: seq<Action>, s: State, t: Timer)
    requires Runs(actions, s) && t in s.delegates
    ensures (exists c :: c in s.clients && s.clients[c] == Some(t)) || MsgRemove(t) in s.queue
  {
    RunsKeepLife(actions, s);
    assert TimerOk(s, t);
    if !Attached(s, t) {
      assert MsgRemove(t) in multiset(s.queue);
    }
  }

  /**
  A running timer is never forgotten: it is still to be pushed, or just popped, or its
  container is awake, or the kernel is being armed, or it will wake the poll thread no later
  than the timer is due.
  */
  lemma {:induction false} RunningTimerIsWatched(actions: seq<Action>, s: State, c: nat)
    requires Runs(actions, s) && Running(s, c)
    ensures var t := s.clients[c].value; var k := Get(s, t.wake);
      || MsgPush(t) in s.queue
      || Held(s, t) == 1
      || !k.poll.Waiting?
      || MsgExpire(t.wake) in s.queue
      || (s.hand.Expiring? && s.hand.wake == t.wake)
      || (Contains(k.box.heap, t) && k.box.polled && s.hand == Arming(t.wake))
      || (Contains(k.box.heap, t) && k.box.polled && k.box.armed.Some? && Due(t.(due := k.box.armed.value), t.due))
  {
    RunsKeepLife(actions, s);
    var t := s.clients[c].value;
    assert ClientOk(s, c) && TimerOk(s, t);
    if Pushes(s, t) > 0 {
      assert MsgPush(t) in multiset(s.queue);
    } else if Contains(Heap(s, t.wake), t) {
      assert HeapOk(s, t.wake) && Watched(s, t.wake);
      TimerRanksIsTotal();
      TopIsHighest(TimerRanks, Heap(s, t.wake), t);
    }
  }
}
