/** When a started timer is due: exactly so long after the clock of its own start, over all runs. */
module TimerStarts {
  import opened Options
  import opened HeapTree
  import opened TimerClock
  import opened TimerContainer
  import opened TimerService
  import opened TimerWakeup
  import opened TimerLifetime
  import opened TimerGuarantees
  import opened TimerProgress

  const NSEC_PER_MSEC: int := 1_000_000

  /** The due time fits in the clock of one boot. */
  predicate DueInWindow(now: Time, ms: nat) {
    ms < TWO_32 && Nanos(now) + ms * NSEC_PER_MSEC < TWO_31 * NSEC_PER_SEC
  }

  /** A start of an idle client is always possible, and its timer is due ms milliseconds from now. */
  lemma {:induction false} StartIsDueInTime(actions: seq<Action>, s: State, c: nat, now: Time, ms: nat, w: bool)
    requires Runs(actions, s) && c in s.clients && !Running(s, c) && DueInWindow(now, ms)
    ensures Enabled(s, Start(c, now, ms, w))
    ensures var s' := Step(s, Start(c, now, ms, w));
      && Running(s', c)
      && var t := s'.clients[c].value;
      && Nanos(t.due) == Nanos(now) + ms * NSEC_PER_MSEC && t.wake == w
      && t !in s.delegates && s'.delegates == s.delegates[t := Delegate(Some(c), c, true)]
      && s'.queue == s.queue + [MsgPush(t)]
      && s'.sw == s.sw && s'.hw == s.hw && s'.hand == s.hand
  {
    FutureTimeIsExact(now, ms);
    RunsKeepLife(actions, s);
    assert TimerOk(s, Timer(s.nextTimer, FutureTime(now, ms), w));
  }

  /** A client that runs already is left alone, and a client may always stop, and go. */
  lemma ClientsMayCall(s: State, c: nat, now: Time, ms: nat, w: bool)
    requires c in s.clients && DueInWindow(now, ms)
    ensures Enabled(s, NewClient) && Enabled(s, Stop(c)) && Enabled(s, Destroy(c)) && Enabled(s, Start(c, now, ms, w))
    ensures Running(s, c) ==> Step(s, Start(c, now, ms, w)) == s
  {
    FutureTimeIsExact(now, ms);
  }

  // ---------------------------------------------------------------- every delegate has a start of its own

  /** Action i is the start of client c that made the delegate, and no other start did. */
  ghost predicate StartedAt(actions: seq<Action>, i: nat, t: Timer, c: nat)
    requires i < |actions|
  {
    && actions[i].Start? && actions[i].c == c
    && Nanos(t.due) == Nanos(actions[i].now) + actions[i].ms * NSEC_PER_MSEC && t.wake == actions[i].wake
    && exists p: State :: Runs(actions[..i], p) && c in p.clients && !Running(p, c) && p.nextTimer == t.id
  }

  ghost predicate Started(actions: seq<Action>, t: Timer, c: nat) {
    exists i :: 0 <= i < |actions| && StartedAt(actions, i, t, c)
  }

  /** Between the two states no delegate appeared, and none changed its owner. */
  ghost predicate NoNewDelegates(s: State, s': State) {
    forall t :: t in s'.delegates ==> t in s.delegates && s'.delegates[t].owner == s.delegates[t].owner
  }

  lemma StopAddsNone(s: State, c: nat, byExpiry: bool)
    requires c in s.clients
    ensures NoNewDelegates(s, StopClient(s, c, byExpiry))
  {
  }

  lemma DeliverAddsNone(s: State, now: Time)
    requires Enabled(s, Deliver(now))
    ensures NoNewDelegates(s, Step(s, Deliver(now)))
  {
  }

  lemma OthersAddNone(s: State, a: Action)
    requires Enabled(s, a) && !a.Start? && !a.Deliver?
    ensures NoNewDelegates(s, Step(s, a))
  {
    forall c, e | c in s.clients { StopAddsNone(s, c, e); }
  }

  lemma StartedEarlier(actions: seq<Action>, t: Timer, c: nat)
    requires actions != [] && Started(actions[..|actions| - 1], t, c)
    ensures Started(actions, t, c)
  {
    var n := |actions| - 1;
    var i :| 0 <= i < n && StartedAt(actions[..n], i, t, c);
    assert actions[..n][..i] == actions[..i];
    assert StartedAt(actions, i, t, c);
  }

  lemma {:induction false} StartedNow(actions: seq<Action>, p: State, t: Timer)
    requires actions != [] && Runs(actions[..|actions| - 1], p)
    requires var a := actions[|actions| - 1];
      && Enabled(p, a) && a.Start? && t !in p.delegates && t in Step(p, a).delegates
    ensures var a := actions[|actions| - 1];
      Started(actions, t, a.c) && Step(p, a).delegates[t].owner == a.c
  {
    var n := |actions| - 1;
    var a := actions[n];
    FutureTimeIsExact(a.now, a.ms);
    assert t == Timer(p.nextTimer, FutureTime(a.now, a.ms), a.wake);
    assert StartedAt(actions, n, t, a.c);
  }

  /** Every live delegate carries the due time and the container of its own start, by its owner. */
  lemma {:induction false} DelegateWasStarted(actions: seq<Action>, s: State, t: Timer)
    requires Runs(actions, s) && t in s.delegates
    ensures Started(actions, t, s.delegates[t].owner)
  {
    var n := |actions| - 1;
    var p: State :| Runs(actions[..n], p) && Enabled(p, actions[n]) && s == Step(p, actions[n]);
    var a := actions[n];
    if t in p.delegates {
      DelegateWasStarted(actions[..n], p, t);
      StartedEarlier(actions, t, p.delegates[t].owner);
      OwnerStays(actions[..n], p, a, t);
    } else if a.Start? {
      StartedNow(actions, p, t);
    } else if a.Deliver? {
      DeliverAddsNone(p, a.now);
    } else {
      OthersAddNone(p, a);
    }
  }

  lemma {:induction false} OwnerStays(actions: seq<Action>, p: State, a: Action, t: Timer)
    requires Runs(actions, p) && Enabled(p, a) && t in p.delegates && t in Step(p, a).delegates
    ensures Step(p, a).delegates[t].owner == p.delegates[t].owner
  {
    if a.Start? {
      RunsKeepLife(actions, p);
      assert TimerOk(p, t);
    } else if a.Deliver? {
      DeliverAddsNone(p, a.now);
    } else {
      OthersAddNone(p, a);
    }
  }

  /** A timer sits in no container but the one its start asked for. */
  lemma {:induction false} InItsContainer(actions: seq<Action>, s: State, w: bool, t: Timer)
    requires Runs(actions, s) && Contains(Heap(s, w), t)
    ensures t.wake == w && t in s.delegates && Started(actions, t, s.delegates[t].owner)
  {
    RunsKeepLife(actions, s);
    assert HeapOk(s, w) && TimerOk(s, t);
    DelegateWasStarted(actions, s, t);
  }

  /** At rest no client waits longer than it asked for: for each that runs, its own timeout has not elapsed. */
  lemma {:induction false} NoTimeoutHasElapsed(actions: seq<Action>, s: State, now: Time, c: nat)
    requires Runs(actions, s) && AtRest(s, now) && Running(s, c)
    ensures exists i :: (
      && 0 <= i < |actions| && StartedAt(actions, i, s.clients[c].value, c)
      && Nanos(now) < Nanos(actions[i].now) + actions[i].ms * NSEC_PER_MSEC)
  {
    var t := s.clients[c].value;
    AtRestAllAreServed(actions, s, now);
    RunsKeepLife(actions, s);
    assert ClientOk(s, c) && TimerOk(s, t);
    DelegateWasStarted(actions, s, t);
    var i :| 0 <= i < |actions| && StartedAt(actions, i, t, c);
    assert !Due(t, now);
  }
}
