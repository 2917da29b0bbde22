/**
One LocTimerContainer: a heap of delegates, the kernel timer armed for the soonest one, and
whether the poll thread watches it. The message procs change the container step by step.
*/
module TimerContainer {
  import opened Options
  import opened HeapTree
  import opened LocHeap
  import opened TimerClock

  /** A LocTimerDelegate as the heap sees it: the object (id), its due time and its container. */
  datatype Timer = Timer(id: nat, due: Time, wake: bool)

  function TimerRanks(a: Timer, b: Timer): int { Ranks(a.due, b.due) }

  predicate Due(t: Timer, now: Time) { Nanos(t.due) <= Nanos(now) }

  lemma {:induction false} TimerRanksIsTotal()
    ensures TotalPreorder(TimerRanks)
    ensures forall a: Timer, b: Timer :: OutRanks(TimerRanks, a, b) <==> Nanos(a.due) < Nanos(b.due)
  {
    forall a: Timer, b: Timer
      ensures OutRanks(TimerRanks, a, b) <==> Nanos(a.due) < Nanos(b.due)
    {
      RanksIsReverseChronological(a.due, b.due);
    }
  }

  /** The values of a container: heap, armed kernel time (None: disarmed), and polled flag. */
  datatype Box = Box(heap: Tree<Timer>, armed: Option<Time>, polled: bool)

  /** Whether updateSoonestTime has something to do: there is a new top, and it is due earlier, or none is left. */
  predicate TopMoved(heap: Tree<Timer>, priorTop: Option<Timer>) {
    var curTop := Top(heap);
    curTop != priorTop && (curTop.None? || priorTop.None? || OutRanks(TimerRanks, curTop.value, priorTop.value))
  }

  /** The first half of updateSoonestTime: the timer is polled, unless the heap is empty. */
  function SetPoll(b: Box, priorTop: Option<Timer>): Box {
    if TopMoved(b.heap, priorTop) then b.(polled := b.heap.Node?) else b
  }

  /** Its second half: the kernel timer is armed for the top, or disarmed. */
  function SetTime(b: Box): Box {
    b.(armed := if b.heap.Node? then Some(b.heap.data.due) else None)
  }

  /** updateSoonestTime: the kernel timer and the poll follow a new top. */
  function Rearmed(b: Box, priorTop: Option<Timer>): Box {
    if TopMoved(b.heap, priorTop) then SetTime(SetPoll(b, priorTop)) else b
  }

  function Pushed(b: Box, t: Timer): Box { b.(heap := Push(TimerRanks, b.heap, t)) }

  /** MsgTimerPush::proc, on the container. */
  function AfterPush(b: Box, t: Timer): Box { Rearmed(Pushed(b, t), Top(b.heap)) }

  function Removed(b: Box, t: Timer): Box { b.(heap := Remove(TimerRanks, b.heap, t).0) }

  /** What MsgTimerRemove::proc gives updateSoonestTime: NULL if the top was removed, else it is not called. */
  function TopAfterRemove(b: Box, t: Timer): Option<Timer> {
    if Top(b.heap) == Remove(TimerRanks, b.heap, t).1 then None else Top(Removed(b, t).heap)
  }

  /** The container part of MsgTimerRemove::proc. */
  function AfterRemove(b: Box, t: Timer): Box { Rearmed(Removed(b, t), TopAfterRemove(b, t)) }

  /** popIfOutRanks with the timer of now. */
  function PopIfDue(heap: Tree<Timer>, now: Time): (Tree<Timer>, Option<Timer>) {
    if heap.Node? && !(Ranks(now, heap.data.due) > 0) then PopTop(TimerRanks, heap) else (heap, None)
  }

  /** What the loop of MsgTimerExpire::proc still pops after its first, unconditional pop. */
  ghost function DrainDue(heap: Tree<Timer>, now: Time): (Tree<Timer>, seq<Timer>)
    requires SizesExact(heap)
    decreases Count(heap)
  {
    var (heap', t) := PopIfDue(heap, now);
    if t.None? then (heap', [])
    else
      PopKeepsSizes(TimerRanks, heap);
      var (left, rest) := DrainDue(heap', now);
      (left, [t.value] + rest)
  }

  ghost function Drain(heap: Tree<Timer>, now: Time): (Tree<Timer>, seq<Timer>)
    requires SizesExact(heap)
  {
    if heap.Leaf? then (heap, [])
    else
      PopKeepsSizes(TimerRanks, heap);
      var (heap', t) := Pop(TimerRanks, heap);
      var (left, rest) := DrainDue(heap', now);
      (left, [t] + rest)
  }

  // ---------------------------------------------------------------- armed and polled

  /** The kernel wakes the poll thread when the top is due, if there is one. */
  predicate Watching(b: Box) {
    b.heap.Node? ==> b.polled && b.armed == Some(b.heap.data.due)
  }

  /** updateSoonestTime(NULL) watches any top; a call with the old top keeps watching whatever the new one is. */
  lemma RearmedWatches(b: Box, priorTop: Option<Timer>)
    ensures priorTop.None? ==> Watching(Rearmed(b, priorTop))
    ensures Rearmed(b, priorTop).heap == b.heap
    ensures TopMoved(b.heap, priorTop) && b.heap.Leaf? ==> Rearmed(b, priorTop) == b.(armed := None, polled := false)
    ensures TopMoved(b.heap, priorTop) && b.heap.Node? ==> Watching(Rearmed(b, priorTop))
    ensures !TopMoved(b.heap, priorTop) ==> Rearmed(b, priorTop) == b
  {
  }

  lemma PushWatches(b: Box, t: Timer)
    requires WellFormed(TimerRanks, b.heap) && Watching(b)
    ensures Watching(AfterPush(b, t))
  {
    TimerRanksIsTotal();
    PushKeepsOrder(TimerRanks, b.heap, t);
  }

  lemma RemoveWatches(b: Box, t: Timer)
    requires WellFormed(TimerRanks, b.heap) && Watching(b)
    ensures Watching(AfterRemove(b, t))
  {
    TimerRanksIsTotal();
    RemoveKeepsOrder(TimerRanks, b.heap, t);
    RemoveIsComplete(TimerRanks, b.heap, t);
    if !Contains(b.heap, t) {
      RemoveMissChangesNothing(TimerRanks, b.heap, t);
    }
  }

  // ---------------------------------------------------------------- what a drain pops

  ghost predicate Conserved(heap: Tree<Timer>, left: Tree<Timer>, fired: seq<Timer>) {
    forall z :: Occ(heap, z) == Occ(left, z) + multiset(fired)[z]
  }

  lemma {:induction false} DrainDuePopsDue(heap: Tree<Timer>, now: Time)
    requires WellFormed(TimerRanks, heap)
    ensures var (left, fired) := DrainDue(heap, now);
      && WellFormed(TimerRanks, left)
      && Conserved(heap, left, fired)
      && (forall t :: t in fired ==> Due(t, now))
      && (forall t :: Contains(left, t) ==> !Due(t, now))
    decreases Count(heap)
  {
    TimerRanksIsTotal();
    if heap.Node? {
      RanksIsReverseChronological(now, heap.data.due);
    }
    var (heap', t) := PopIfDue(heap, now);
    if t.Some? {
      PopKeepsSizes(TimerRanks, heap);
      PopKeepsOrder(TimerRanks, heap);
      PopTakesTop(TimerRanks, heap);
      DrainDuePopsDue(heap', now);
      var (left, rest) := DrainDue(heap', now);
      forall z ensures Occ(heap, z) == Occ(left, z) + multiset([t.value] + rest)[z] {
        PopRemovesOne(TimerRanks, heap, z);
      }
    } else {
      forall z | Contains(heap, z) ensures !Due(z, now) {
        TopIsHighest(TimerRanks, heap, z);
      }
    }
  }

  /** From any heap the drain leaves only strictly later timers, and loses and invents none. */
  lemma DrainLeavesLater(heap: Tree<Timer>, now: Time)
    requires WellFormed(TimerRanks, heap)
    ensures var (left, fired) := Drain(heap, now);
      && WellFormed(TimerRanks, left)
      && Conserved(heap, left, fired)
      && (forall t :: Contains(left, t) ==> !Due(t, now))
  {
    if heap.Node? {
      TimerRanksIsTotal();
      PopKeepsSizes(TimerRanks, heap);
      PopKeepsOrder(TimerRanks, heap);
      PopTakesTop(TimerRanks, heap);
      var (heap', t) := Pop(TimerRanks, heap);
      DrainDuePopsDue(heap', now);
      var (left, rest) := DrainDue(heap', now);
      forall z ensures Occ(heap, z) == Occ(left, z) + multiset([t] + rest)[z] {
        PopRemovesOne(TimerRanks, heap, z);
      }
    }
  }

  /** Its first pop is the top; all the others are due. */
  lemma DrainFiresDue(heap: Tree<Timer>, now: Time)
    requires WellFormed(TimerRanks, heap) && heap.Node?
    ensures var fired := Drain(heap, now).1;
      && |fired| > 0 && fired[0] == heap.data
      && (forall i :: 1 <= i < |fired| ==> Due(fired[i], now))
  {
    TimerRanksIsTotal();
    PopKeepsSizes(TimerRanks, heap);
    PopKeepsOrder(TimerRanks, heap);
    PopTakesTop(TimerRanks, heap);
    DrainDuePopsDue(Pop(TimerRanks, heap).0, now);
  }

  lemma FiredIffDue(heap: Tree<Timer>, left: Tree<Timer>, fired: seq<Timer>, now: Time, t: Timer)
    requires Conserved(heap, left, fired) && !(Contains(left, t) && Due(t, now))
    requires forall z :: z in fired ==> Due(z, now)
    ensures t in fired <==> Contains(heap, t) && Due(t, now)
  {
    assert t in fired <==> multiset(fired)[t] > 0;
    assert Occ(heap, t) == Occ(left, t) + multiset(fired)[t];
  }

  /**
  From any heap the drain leaves only strictly later timers and at most its first pop was not
  due; when the top was due on entry it pops exactly the due timers.
  */
  lemma ExpiryDrain(heap: Tree<Timer>, now: Time)
    requires WellFormed(TimerRanks, heap)
    ensures var (left, fired) := Drain(heap, now);
      && WellFormed(TimerRanks, left)
      && Conserved(heap, left, fired)
      && (forall t :: Contains(left, t) ==> !Due(t, now))
      && (forall i :: 1 <= i < |fired| ==> Due(fired[i], now))
      && (heap.Node? ==> |fired| > 0 && fired[0] == heap.data)
      && (heap.Node? && Due(heap.data, now) ==> forall t :: t in fired <==> Contains(heap, t) && Due(t, now))
  {
    DrainLeavesLater(heap, now);
    if heap.Node? {
      DrainFiresDue(heap, now);
      var (left, fired) := Drain(heap, now);
      if Due(heap.data, now) {
        forall t { FiredIffDue(heap, left, fired, now, t); }
      }
    }
  }

  /** The list of a drain, after what was already fired. */
  ghost function After(fired: seq<Timer>, drained: (Tree<Timer>, seq<Timer>)): (Tree<Timer>, seq<Timer>) {
    (drained.0, fired + drained.1)
  }

  lemma DrainDueStep(heap: Tree<Timer>, now: Time, fired: seq<Timer>)
    requires SizesExact(heap)
    ensures var (heap', t) := PopIfDue(heap, now);
      if t.None? then heap' == heap && After(fired, DrainDue(heap, now)) == (heap, fired)
      else
        && SizesExact(heap') && Count(heap') < Count(heap)
        && After(fired, DrainDue(heap, now)) == After(fired + [t.value], DrainDue(heap', now))
  {
    var (heap', t) := PopIfDue(heap, now);
    if t.Some? {
      PopKeepsSizes(TimerRanks, heap);
      var rest := DrainDue(heap', now).1;
      assert fired + ([t.value] + rest) == (fired + [t.value]) + rest;
    } else {
      assert fired + [] == fired;
    }
  }

  lemma DrainStep(heap: Tree<Timer>, now: Time)
    requires SizesExact(heap) && heap.Node?
    ensures var (heap', t) := Pop(TimerRanks, heap);
      SizesExact(heap') && Drain(heap, now) == After([t], DrainDue(heap', now))
  {
    PopKeepsSizes(TimerRanks, heap);
  }

  // ---------------------------------------------------------------- the container object

  class LocTimerContainer {
    const heap: LocHeap<Timer>
    var armed: Option<Time>
    var polled: bool

    ghost predicate Valid()
      reads this, heap, Nodes(heap.shape)
    {
      heap.Valid() && heap.rank == TimerRanks
    }

    ghost function Value(): Box
      reads this, heap
    {
      Box(heap.Contents(), armed, polled)
    }

    constructor ()
      ensures Valid() && fresh(heap) && Nodes(heap.shape) == {} && Value() == Box(Leaf, None, false)
    {
      heap := new LocHeap(TimerRanks);
      armed, polled := None, false;
    }

    method UpdateSoonestTime(priorTop: Option<Timer>)
      requires Valid()
      modifies `armed, `polled
      ensures Valid() && Value() == Rearmed(old(Value()), priorTop)
      ensures var top := Top(heap.Contents());
        if top == priorTop then armed == old(armed) && polled == old(polled)
        else if top.None? then armed.None? && !polled
        else if priorTop.None? || Nanos(top.value.due) < Nanos(priorTop.value.due)
        then armed == Some(top.value.due) && polled
        else armed == old(armed) && polled == old(polled)
    {
      TimerRanksIsTotal();
      var curTop := heap.Peek();
      if curTop != priorTop {
        if curTop.None? {
          polled := false;
          armed := None;
        } else if priorTop.None? || OutRanks(TimerRanks, curTop.value, priorTop.value) {
          polled := true;
          armed := Some(curTop.value.due);
        }
      }
    }

    method PushProc(t: Timer)
      requires Valid()
      modifies this, heap, Nodes(heap.shape)
      ensures Valid() && fresh(Nodes(heap.shape) - old(Nodes(heap.shape)))
      ensures Value() == AfterPush(old(Value()), t)
      ensures old(WellFormed(TimerRanks, heap.Contents()) && Watching(Value())) ==> Watching(Value())
    {
      if WellFormed(TimerRanks, heap.Contents()) && Watching(Value()) { PushWatches(Value(), t); }
      var priorTop := heap.Peek();
      heap.Push(t);
      UpdateSoonestTime(priorTop);
    }

    method RemoveProc(t: Timer)
      requires Valid()
      modifies this, heap, Nodes(heap.shape)
      ensures Valid() && Nodes(heap.shape) <= old(Nodes(heap.shape))
      ensures Value() == AfterRemove(old(Value()), t)
      ensures old(WellFormed(TimerRanks, heap.Contents()) && Watching(Value())) ==> Watching(Value())
    {
      if WellFormed(TimerRanks, heap.Contents()) && Watching(Value()) { RemoveWatches(Value(), t); }
      var priorTop := heap.Peek();
      var gone := heap.Remove(t);
      if priorTop == gone {
        UpdateSoonestTime(None);
      }
    }

    method PopIfOutRanks(now: Time) returns (popped: Option<Timer>)
      requires Valid()
      modifies heap, Nodes(heap.shape)
      ensures Valid() && Nodes(heap.shape) <= old(Nodes(heap.shape))
      ensures (heap.Contents(), popped) == PopIfDue(old(heap.Contents()), now)
    {
      popped := None;
      var top := heap.Peek();
      if top.Some? && !(Ranks(now, top.value.due) > 0) {
        popped := heap.Pop();
      }
    }

    /** MsgTimerExpire::proc; fired lists the delegates whose expire() it calls, in order. */
    method ExpireProc(now: Time) returns (fired: seq<Timer>)
      requires Valid() && SizesExact(heap.Contents())
      modifies this, heap, Nodes(heap.shape)
      ensures Valid() && Nodes(heap.shape) <= old(Nodes(heap.shape))
      ensures var (left, drained) := Drain(old(heap.Contents()), now);
        && fired == drained
        && Value() == Rearmed(old(Value()).(heap := left), None)
      ensures Watching(Value())
    {
      RearmedWatches(Value().(heap := Drain(heap.Contents(), now).0), None);
      if heap.Contents().Node? {
        DrainStep(heap.Contents(), now);
      }
      var timer := heap.Pop();
      fired := [];
      if timer.Some? {
        fired := ExpireLoop(timer.value, now);
      }
      UpdateSoonestTime(None);
    }

    /** The loop of MsgTimerExpire::proc, if the first pop yields a timer. */
    method ExpireLoop(first: Timer, now: Time) returns (fired: seq<Timer>)
      requires Valid() && SizesExact(heap.Contents())
      modifies heap, Nodes(heap.shape)
      ensures Valid() && Nodes(heap.shape) <= old(Nodes(heap.shape))
      ensures (heap.Contents(), fired) == After([first], DrainDue(old(heap.Contents()), now))
    {
      fired := [];
      var timer := Some(first);
      ghost var goal := After([first], DrainDue(heap.Contents(), now));
      assert [] + [first] == [first];
      while timer.Some?
        invariant Valid() && Nodes(heap.shape) <= old(Nodes(heap.shape)) && SizesExact(heap.Contents())
        invariant goal == if timer.None? then (heap.Contents(), fired)
                          else After(fired + [timer.value], DrainDue(heap.Contents(), now))
        decreases Count(heap.Contents()), timer.Some?
      {
        fired := fired + [timer.value];
        DrainDueStep(heap.Contents(), now, fired);
        timer := PopIfOutRanks(now);
      }
    }
  }
}
