/**
What each input of an AGPS machine does, said without its functions: which callbacks are made,
each how often, who is on the list afterwards and as what, and the next state.
*/
module AgpsCallbacks {
  import opened AgpsMachine
  import opened AgpsSafety

  ghost predicate HasActive(l: Subscribers, h: int) {
    exists i :: 0 <= i < |l| && l[i].connHandle == h && !l[i].isInactive
  }

  ghost predicate HasInactive(l: Subscribers, h: int) {
    exists i :: 0 <= i < |l| && l[i].connHandle == h && l[i].isInactive
  }

  /** A subscriber other than that of the handle still uses the connection. */
  ghost predicate OthersActive(l: Subscribers, h: int) {
    exists i :: 0 <= i < |l| && l[i].connHandle != h && !l[i].isInactive
  }

  ghost predicate Waits(l: Subscribers, h: int) {
    exists i :: 0 <= i < |l| && l[i].connHandle == h && l[i].waitForCloseComplete
  }

  /** The release of a connection ends, well or not. */
  predicate ReleaseEnds(m: Machine, e: Input) { m.state.StateReleasing? && (e.Released? || e.Denied?) }

  /** The callbacks that an input makes. */
  ghost predicate Tells(m: Machine, e: Input, c: Callback) {
    match c
    case AtlOpenStatus(h, true) =>
      || (e.Granted? && m.state.StatePending? && HasActive(m.list, h))
      || (e.Request? && e.h == h && m.state.StateAcquired?)
    case AtlOpenStatus(h, false) =>
      e.Denied? && m.state.StatePending? && Has(m.list, h)
    case AtlCloseStatus(h, true) =>
      || (e.Released? && m.state.StateAcquired? && Has(m.list, h))
      || (ReleaseEnds(m, e) && HasInactive(m.list, h))
      || (e == Release(h) && Has(m.list, h) && !Waits(m.list, h))
    case AtlCloseStatus(h, false) =>
      e == Release(h) && !Has(m.list, h)
    case DataConn(true) =>
      (e.Request? && m.state.StateReleased?) || (ReleaseEnds(m, e) && AnyActive(m.list))
    case DataConn(false) =>
      && e.Release? && Has(m.list, e.h) && (m.state.StatePending? || m.state.StateAcquired?)
      && !OthersActive(m.list, e.h)
  }

  ghost function Times(cs: seq<Callback>, c: Callback): nat { multiset(cs)[c] }

  ghost function One(b: bool): nat { if b then 1 else 0 }

  // ---------------------------------------------------------------- notifications

  /** Subscriber i is told just that. */
  ghost predicate IsTold(l: Subscribers, event: AgpsEvent, who: NotificationType, c: Callback, i: nat)
    requires i < |l| && !event.EventSubscribe?
  {
    Concerns(who, l[i]) && Note(event, l[i]) == c
  }

  ghost predicate SomeTold(l: Subscribers, event: AgpsEvent, who: NotificationType, c: Callback)
    requires !event.EventSubscribe?
  {
    exists i :: 0 <= i < |l| && IsTold(l, event, who, c, i)
  }

  lemma SomeToldStep(l: Subscribers, event: AgpsEvent, who: NotificationType, c: Callback)
    requires l != [] && !event.EventSubscribe?
    ensures SomeTold(l, event, who, c) <==> IsTold(l, event, who, c, 0) || SomeTold(l[1..], event, who, c)
  {
    if i :| 0 <= i < |l| && IsTold(l, event, who, c, i) {
      assert i == 0 || IsTold(l[1..], event, who, c, i - 1);
    }
    if i :| 0 <= i < |l| - 1 && IsTold(l[1..], event, who, c, i) {
      assert IsTold(l, event, who, c, i + 1);
    }
  }

  lemma ToldApart(l: Subscribers, event: AgpsEvent, who: NotificationType, c: Callback)
    requires Distinct(l) && l != [] && !event.EventSubscribe?
    ensures !(IsTold(l, event, who, c, 0) && SomeTold(l[1..], event, who, c))
  {
    if i :| 0 <= i < |l| - 1 && IsTold(l[1..], event, who, c, i) {
      assert l[1..][i] == l[i + 1] && l[i + 1].connHandle != l[0].connHandle;
    }
  }

  /** With distinct handles, a notification makes a callback for each subscriber it concerns. */
  lemma {:induction false} NotesTell(l: Subscribers, event: AgpsEvent, who: NotificationType, c: Callback)
    requires Distinct(l) && !event.EventSubscribe?
    ensures Times(Notes(l, event, who), c) == One(SomeTold(l, event, who, c))
  {
    if l != [] {
      NotesTell(l[1..], event, who, c);
      SomeToldStep(l, event, who, c);
      ToldApart(l, event, who, c);
      NotesHead(l, event, who, c);
    }
  }

  lemma NotesHead(l: Subscribers, event: AgpsEvent, who: NotificationType, c: Callback)
    requires l != [] && !event.EventSubscribe?
    ensures Times(Notes(l, event, who), c) ==
      One(IsTold(l, event, who, c, 0)) + Times(Notes(l[1..], event, who), c)
  {
    TimesAppend(if Concerns(who, l[0]) then [Note(event, l[0])] else [], Notes(l[1..], event, who), c);
  }

  lemma TimesAppend(a: seq<Callback>, b: seq<Callback>, c: Callback)
    ensures Times(a + b, c) == Times(a, c) + Times(b, c)
  {
  }

  /** What the three notifications say, and to whom. */
  lemma TellsOne(l: Subscribers, event: AgpsEvent, who: NotificationType, c: Callback)
    requires Distinct(l) && (event.EventGranted? || event.EventDenied? || event.EventReleased?)
    ensures Times(Notes(l, event, who), c) == One(
      && (if event.EventReleased? then c.AtlCloseStatus? else c.AtlOpenStatus?)
      && (c.isSuccess <==> !event.EventDenied?) && SomeConcerned(l, who, c.handle))
  {
    NotesTell(l, event, who, c);
    if c.DataConn? {
    } else if SomeConcerned(l, who, c.handle) {
      var i :| 0 <= i < |l| && l[i].connHandle == c.handle && Concerns(who, l[i]);
      assert Note(event, l[i]) == c ==> IsTold(l, event, who, c, i);
    }
  }

  ghost predicate SomeConcerned(l: Subscribers, who: NotificationType, h: int) {
    match who
    case ForAll => Has(l, h)
    case ForActive => HasActive(l, h)
    case ForInactive => HasInactive(l, h)
  }

  lemma Appended(log: seq<Callback>, cs: seq<Callback>, m: Machine, m': Machine)
    requires m.log == log && m'.log == log + cs
    ensures Fresh(m, m') == cs
  {
  }

  /** What a step adds to the log. */
  lemma RequestTellsExactly(m: Machine, h: int, wait: bool, c: Callback)
    requires AlwaysOk(m)
    ensures m.log <= Step(m, Request(h, wait)).log
    ensures Times(Fresh(m, Step(m, Request(h, wait))), c) == One(Tells(m, Request(h, wait), c))
  {
    var m' := Step(m, Request(h, wait));
    var cs := match m.state
      case StateReleased => [DataConn(true)]
      case StateAcquired => [AtlOpenStatus(h, true)]
      case _ => [];
    assert m.log + [] == m.log;
    Appended(m.log, cs, m, m');
  }

  lemma GrantTellsExactly(m: Machine, c: Callback)
    requires AlwaysOk(m)
    ensures m.log <= Step(m, Granted).log
    ensures Times(Fresh(m, Step(m, Granted)), c) == One(Tells(m, Granted, c))
  {
    var cs := if m.state.StatePending? then Notes(m.list, EventGranted, ForActive) else [];
    assert m.log + [] == m.log;
    Appended(m.log, cs, m, Step(m, Granted));
    TellsOne(m.list, EventGranted, ForActive, c);
  }

  lemma EndReleaseLog(m: Machine)
    requires AlwaysOk(m)
    ensures EndRelease(m).log ==
      m.log + (Notes(m.list, EventReleased, ForInactive) + if AnyActive(m.list) then [DataConn(true)] else [])
  {
    var notes, k := Notes(m.list, EventReleased, ForInactive), Unconcerned(m.list, ForInactive);
    AboutKeep(m.list, Spared(ForInactive));
    SameActive(m.list, k);
    assert m.log + notes + [DataConn(true)] == m.log + (notes + [DataConn(true)]) && notes + [] == notes;
  }

  lemma EndReleaseTellsExactly(m: Machine, c: Callback)
    requires AlwaysOk(m)
    ensures m.log <= EndRelease(m).log
    ensures Times(Fresh(m, EndRelease(m)), c) == One(
      || (c.AtlCloseStatus? && c.isSuccess && HasInactive(m.list, c.handle))
      || (c == DataConn(true) && AnyActive(m.list)))
  {
    var notes := Notes(m.list, EventReleased, ForInactive);
    var last := if AnyActive(m.list) then [DataConn(true)] else [];
    EndReleaseLog(m);
    Appended(m.log, notes + last, m, EndRelease(m));
    TimesAppend(notes, last, c);
    assert Times(last, c) == One(AnyActive(m.list) && c == DataConn(true));
    TellsOne(m.list, EventReleased, ForInactive, c);
  }

  lemma SameActive(l: Subscribers, k: Subscribers)
    requires forall s :: s in k <==> s in l && !s.isInactive
    ensures AnyActive(k) <==> AnyActive(l)
  {
    if i :| 0 <= i < |l| && !l[i].isInactive {
      assert l[i] in k;
      var j :| 0 <= j < |k| && k[j] == l[i];
    }
    if i :| 0 <= i < |k| && !k[i].isInactive {
      assert k[i] in l;
      var j :| 0 <= j < |l| && l[j] == k[i];
    }
  }

  lemma DropTellsExactly(m: Machine, event: AgpsEvent, c: Callback)
    requires AlwaysOk(m) && (event.EventReleased? || event.EventDenied?)
    ensures m.log <= DropAll(m, event).log
    ensures Times(Fresh(m, DropAll(m, event)), c) == One(
      && (if event.EventReleased? then c.AtlCloseStatus? && c.isSuccess else c.AtlOpenStatus? && !c.isSuccess)
      && Has(m.list, c.handle))
  {
    Appended(m.log, Notes(m.list, event, ForAll), m, DropAll(m, event));
    TellsOne(m.list, event, ForAll, c);
  }

  lemma ReleasedTellsExactly(m: Machine, c: Callback)
    requires AlwaysOk(m)
    ensures m.log <= Step(m, Released).log
    ensures Times(Fresh(m, Step(m, Released)), c) == One(Tells(m, Released, c))
  {
    match m.state
    case StateAcquired => DropTellsExactly(m, EventReleased, c);
    case StateReleasing => EndReleaseTellsExactly(m, c);
    case _ => assert Fresh(m, m) == [];
  }

  lemma DeniedTellsExactly(m: Machine, c: Callback)
    requires AlwaysOk(m)
    ensures m.log <= Step(m, Denied).log
    ensures Times(Fresh(m, Step(m, Denied)), c) == One(Tells(m, Denied, c))
  {
    match m.state
    case StatePending => DropTellsExactly(m, EventDenied, c);
    case StateReleasing => EndReleaseTellsExactly(m, c);
    case _ => assert Fresh(m, m) == [];
  }

  /** What the leaver of a release leaves behind. */
  lemma LeaveLeaves(m: Machine, s: AgpsSubscriber, t: AgpsSubscriber)
    requires AlwaysOk(m) && s in m.list
    ensures t in Leave(m, s).list <==>
      (t in m.list && t.connHandle != s.connHandle) || (s.waitForCloseComplete && t == s.(isInactive := true))
  {
    var i :| 0 <= i < |m.list| && m.list[i] == s;
    if s.waitForCloseComplete {
      MarkAtFirst(m.list, s.connHandle, i);
      var k := MarkInactive(m.list, s.connHandle);
      assert k == m.list[i := s.(isInactive := true)];
      assert k[i] == s.(isInactive := true);
      if t in m.list && t.connHandle != s.connHandle {
        var j :| 0 <= j < |m.list| && m.list[j] == t;
        assert k[j] == t;
      }
      if t in k {
        var j :| 0 <= j < |k| && k[j] == t;
        assert j != i ==> m.list[j] == t;
      }
    } else {
      AboutKeep(m.list, OtherThan(s.connHandle));
    }
  }

  lemma ActiveAfterLeave(m: Machine, s: AgpsSubscriber)
    requires AlwaysOk(m) && s in m.list
    ensures AnyActive(Leave(m, s).list) <==> OthersActive(m.list, s.connHandle)
    ensures Leave(m, s).list == [] <==>
      !s.waitForCloseComplete && forall i :: 0 <= i < |m.list| ==> m.list[i].connHandle == s.connHandle
  {
    var k := Leave(m, s).list;
    if i :| 0 <= i < |k| && !k[i].isInactive {
      LeaveLeaves(m, s, k[i]);
      assert k[i] in m.list;
      var j :| 0 <= j < |m.list| && m.list[j] == k[i];
    }
    if i :| 0 <= i < |m.list| && m.list[i].connHandle != s.connHandle && !m.list[i].isInactive {
      LeaveLeaves(m, s, m.list[i]);
      assert m.list[i] in k;
      var j :| 0 <= j < |k| && k[j] == m.list[i];
    }
    LeaveLeaves(m, s, s.(isInactive := true));
    if i :| 0 <= i < |m.list| && m.list[i].connHandle != s.connHandle {
      LeaveLeaves(m, s, m.list[i]);
      assert m.list[i] in k;
    }
    if k != [] {
      LeaveLeaves(m, s, k[0]);
      assert k[0] in k;
    }
  }

  lemma FindWaits(l: Subscribers, h: int)
    requires Distinct(l) && Has(l, h)
    ensures Find(l, h) in l && Find(l, h).connHandle == h && (Find(l, h).waitForCloseComplete <==> Waits(l, h))
  {
    AboutFind(l, h);
    var i :| 0 <= i < |l| && l[i] == Find(l, h);
  }

  /** A callback each, or none, for two conditions. */
  ghost function Two(first: bool, x: Callback, last: bool, y: Callback): seq<Callback> {
    (if first then [x] else []) + (if last then [y] else [])
  }

  lemma TwoTell(first: bool, x: Callback, last: bool, y: Callback, c: Callback)
    ensures Times(Two(first, x, last, y), c) == One(first && x == c) + One(last && y == c)
  {
  }

  lemma ReleaseLog(m: Machine, h: int)
    requires AlwaysOk(m) && Has(m.list, h)
    ensures Step(m, Release(h)).log == m.log +
      Two(!Waits(m.list, h), AtlCloseStatus(h, true),
          !m.state.StateReleasing? && !OthersActive(m.list, h), DataConn(false))
  {
    var s := Find(m.list, h);
    FindWaits(m.list, h);
    ActiveAfterLeave(m, s);
    EmptyHasNoActive(Leave(m, s).list);
    var first := if s.waitForCloseComplete then [] else [AtlCloseStatus(h, true)];
    assert m.log + [] == m.log && first + [] == first;
    assert Leave(m, s).log == m.log + first;
    assert m.log + first + [DataConn(false)] == m.log + (first + [DataConn(false)]);
  }

  lemma KnownReleaseTells(m: Machine, h: int, c: Callback)
    requires AlwaysOk(m) && Has(m.list, h)
    ensures m.log <= Step(m, Release(h)).log
    ensures Times(Fresh(m, Step(m, Release(h))), c) ==
      One(!Waits(m.list, h) && AtlCloseStatus(h, true) == c)
      + One(!m.state.StateReleasing? && !OthersActive(m.list, h) && DataConn(false) == c)
  {
    var first, last := !Waits(m.list, h), !m.state.StateReleasing? && !OthersActive(m.list, h);
    ReleaseLog(m, h);
    Appended(m.log, Two(first, AtlCloseStatus(h, true), last, DataConn(false)), m, Step(m, Release(h)));
    TwoTell(first, AtlCloseStatus(h, true), last, DataConn(false), c);
  }

  lemma ReleaseTellsExactly(m: Machine, h: int, c: Callback)
    requires AlwaysOk(m)
    ensures m.log <= Step(m, Release(h)).log
    ensures Times(Fresh(m, Step(m, Release(h))), c) == One(Tells(m, Release(h), c))
  {
    if Has(m.list, h) {
      KnownReleaseTells(m, h, c);
      ReleaseTold(m, h, c);
    } else {
      Appended(m.log, [AtlCloseStatus(h, false)], m, Step(m, Release(h)));
    }
  }

  lemma ReleaseTold(m: Machine, h: int, c: Callback)
    requires AlwaysOk(m) && Has(m.list, h)
    ensures One(Tells(m, Release(h), c)) ==
      One(!Waits(m.list, h) && AtlCloseStatus(h, true) == c)
      + One(!m.state.StateReleasing? && !OthersActive(m.list, h) && DataConn(false) == c)
  {
  }

  lemma EmptyHasNoActive(l: Subscribers)
    ensures l == [] ==> !AnyActive(l)
  {
  }

  /** Each input makes just the callbacks it tells, each of them once, after all that were made before. */
  lemma StepTells(m: Machine, e: Input, c: Callback)
    requires AlwaysOk(m)
    ensures m.log <= Step(m, e).log
    ensures Times(Fresh(m, Step(m, e)), c) == One(Tells(m, e, c))
  {
    match e
    case Request(h, wait) => RequestTellsExactly(m, h, wait, c);
    case Release(h) => ReleaseTellsExactly(m, h, c);
    case Granted => GrantTellsExactly(m, c);
    case Released => ReleasedTellsExactly(m, c);
    case Denied => DeniedTellsExactly(m, c);
    case ModemRestart => assert Fresh(m, Step(m, e)) == [];
  }

  // ---------------------------------------------------------------- the list and the state

  /** Who is on the list after an input, and as what. */
  ghost predicate Listed(m: Machine, e: Input, s: AgpsSubscriber) {
    match e
    case Request(h, wait) => s in m.list || (s == AgpsSubscriber(h, wait, false) && !Has(m.list, h))
    case Release(h) =>
      || (s in m.list && s.connHandle != h)
      || (s.connHandle == h && s.waitForCloseComplete && s.isInactive && Has(m.list, h) && Waits(m.list, h))
    case Granted => s in m.list
    case Released => s in m.list && !m.state.StateAcquired? && (m.state.StateReleasing? ==> !s.isInactive)
    case Denied => s in m.list && !m.state.StatePending? && (m.state.StateReleasing? ==> !s.isInactive)
    case ModemRestart => false
  }

  lemma StepLists(m: Machine, e: Input, s: AgpsSubscriber)
    requires AlwaysOk(m)
    ensures s in Step(m, e).list <==> Listed(m, e, s)
  {
    match e
    case Release(h) =>
      if Has(m.list, h) {
        FindWaits(m.list, h);
        LeaveLeaves(m, Find(m.list, h), s);
      } else if s in m.list {
        var i :| 0 <= i < |m.list| && m.list[i] == s;
      }
    case Released =>
      UnconcernedOk(m.list, ForAll);
      AboutKeep(m.list, Spared(ForInactive));
    case Denied =>
      UnconcernedOk(m.list, ForAll);
      AboutKeep(m.list, Spared(ForInactive));
    case _ =>
  }

  /** The next state. */
  ghost function NextState(m: Machine, e: Input): AgpsState {
    if e.Request? && m.state.StateReleased? then StatePending
    else if e.Granted? && m.state.StatePending? then StateAcquired
    else if (e.Released? && m.state.StateAcquired?) || (e.Denied? && m.state.StatePending?) then StateReleased
    else if ReleaseEnds(m, e) then (if AnyActive(m.list) then StatePending else StateReleased)
    else if !e.Release? || !Has(m.list, e.h) then m.state
    else if !Waits(m.list, e.h) && forall i :: 0 <= i < |m.list| ==> m.list[i].connHandle == e.h then StateReleased
    else if OthersActive(m.list, e.h) then m.state
    else StateReleasing
  }

  lemma StepState(m: Machine, e: Input)
    requires AlwaysOk(m)
    ensures Step(m, e).state == NextState(m, e)
  {
    if e.Release? && Has(m.list, e.h) {
      FindWaits(m.list, e.h);
      ActiveAfterLeave(m, Find(m.list, e.h));
    } else if ReleaseEnds(m, e) {
      AboutKeep(m.list, Spared(ForInactive));
      SameActive(m.list, Unconcerned(m.list, ForInactive));
    }
  }

  // ---------------------------------------------------------------- which terminal callback

  /**
  A subscriber that leaves by a denial while pending gets one open-failed and no close; one that
  leaves in any other way but a modem restart gets one close and no open-failed.
  */
  lemma LeaverIsToldHow(m: Machine, e: Input, h: int)
    requires AlwaysOk(m) && Left(m, Step(m, e), h) && !e.ModemRestart?
    ensures var cs := Fresh(m, Step(m, e)); var denied := e.Denied? && m.state.StatePending?;
      Times(cs, AtlOpenStatus(h, false)) == One(denied) && Times(cs, AtlCloseStatus(h, true)) == One(!denied)
  {
    StepTells(m, e, AtlOpenStatus(h, false));
    StepTells(m, e, AtlCloseStatus(h, true));
    var i :| 0 <= i < |m.list| && m.list[i].connHandle == h;
    StepLists(m, e, m.list[i]);
    StepLists(m, e, m.list[i].(isInactive := true));
    NotHas(Step(m, e).list, m.list[i]);
    NotHas(Step(m, e).list, m.list[i].(isInactive := true));
  }

  lemma NotHas(l: Subscribers, s: AgpsSubscriber)
    requires !Has(l, s.connHandle)
    ensures s !in l
  {
  }

  /** Over runs: whoever leaves in the last step of any run. */
  lemma LeaverOfRunIsToldHow(es: seq<Input>, e: Input, h: int)
    requires Left(Run(es), Step(Run(es), e), h) && !e.ModemRestart?
    ensures var m := Run(es); var cs := Fresh(m, Step(m, e)); var denied := e.Denied? && m.state.StatePending?;
      Times(cs, AtlOpenStatus(h, false)) == One(denied) && Times(cs, AtlCloseStatus(h, true)) == One(!denied)
  {
    RunsAreOk(es);
    LeaverIsToldHow(Run(es), e, h);
  }
}
