/** What every run of an AGPS machine keeps, and who is told what. */
module AgpsSafety {
  import opened AgpsMachine

  // ---------------------------------------------------------------- state and list agree

  lemma UnconcernedOk(l: Subscribers, who: NotificationType)
    requires Distinct(l) && InactiveWait(l)
    ensures Distinct(Unconcerned(l, who)) && InactiveWait(Unconcerned(l, who))
    ensures who.ForAll? ==> Unconcerned(l, who) == []
    ensures who.ForInactive? ==> !AnyInactive(Unconcerned(l, who))
  {
    var k := Unconcerned(l, who);
    AboutKeep(l, Spared(who));
    assert k != [] ==> !Concerns(who, k[0]);
  }

  lemma WithoutOk(l: Subscribers, h: int)
    requires Distinct(l) && InactiveWait(l)
    ensures Distinct(Without(l, h)) && InactiveWait(Without(l, h))
    ensures forall s :: s in Without(l, h) <==> s in l && s.connHandle != h
  {
    AboutKeep(l, OtherThan(h));
  }

  lemma AddOk(l: Subscribers, s: AgpsSubscriber)
    requires Distinct(l) && InactiveWait(l) && !s.isInactive
    ensures Distinct(Add(l, s)) && InactiveWait(Add(l, s)) && Add(l, s) != []
    ensures AnyActive(l) || l == [] ==> AnyActive(Add(l, s))
    ensures AnyInactive(l) ==> AnyInactive(Add(l, s))
  {
    var k := Add(l, s);
    if i :| 0 <= i < |l| && !l[i].isInactive { assert !k[i].isInactive; }
    if i :| 0 <= i < |l| && l[i].isInactive { assert k[i].isInactive; }
    if l == [] { assert !k[0].isInactive; }
  }

  lemma MarkOk(l: Subscribers, s: AgpsSubscriber)
    requires Distinct(l) && InactiveWait(l) && s in l && s.waitForCloseComplete
    ensures var k := MarkInactive(l, s.connHandle); Distinct(k) && InactiveWait(k) && AnyInactive(k)
  {
    AboutMark(l, s.connHandle);
    var j :| 0 <= j < |l| && l[j] == s;
    assert Has(l, s.connHandle);
    assert forall i :: 0 <= i < |l| && l[i].connHandle == s.connHandle ==> i == j;
    assert MarkInactive(l, s.connHandle)[j].isInactive;
  }

  lemma WithoutKeepsInactive(l: Subscribers, s: AgpsSubscriber)
    requires Distinct(l) && s in l && !s.isInactive && AnyInactive(l)
    ensures AnyInactive(Without(l, s.connHandle))
  {
    AboutKeep(l, OtherThan(s.connHandle));
    var i :| 0 <= i < |l| && l[i].isInactive;
    var j :| 0 <= j < |l| && l[j] == s;
    var k := Without(l, s.connHandle);
    assert l[i] in k;
    var n :| 0 <= n < |k| && k[n] == l[i];
  }

  lemma LeaveOk(m: Machine, s: AgpsSubscriber)
    requires Distinct(m.list) && InactiveWait(m.list) && s in m.list
    ensures Distinct(Leave(m, s).list) && InactiveWait(Leave(m, s).list)
    ensures LastRequest(Leave(m, s).log) == LastRequest(m.log) && Leave(m, s).state == m.state
    ensures AnyInactive(m.list) ==> AnyInactive(Leave(m, s).list)
  {
    if s.waitForCloseComplete {
      MarkOk(m.list, s);
    } else {
      WithoutOk(m.list, s.connHandle);
      OneMore(m.log, Note(EventUnsubscribe, s));
      if AnyInactive(m.list) {
        WithoutKeepsInactive(m.list, s);
      }
    }
  }

  lemma SubscribeKeeps(m: Machine, s: AgpsSubscriber)
    requires AlwaysOk(m) && !s.isInactive
    ensures AlwaysOk(OnSubscribe(m, s)) && (MachineOk(m) ==> MachineOk(OnSubscribe(m, s)))
  {
    AddOk(m.list, s);
    OneMore(m.log, DataConn(true));
    OneMore(m.log, Note(EventGranted, s));
  }

  lemma UnsubscribeKeeps(m: Machine, s: AgpsSubscriber)
    requires AlwaysOk(m) && s in m.list
    ensures AlwaysOk(OnUnsubscribe(m, s)) && (MachineOk(m) ==> MachineOk(OnUnsubscribe(m, s)))
  {
    var m1 := Leave(m, s);
    LeaveOk(m, s);
    if m1.list != [] && !AnyActive(m1.list) { assert m1.list[0].isInactive; }
    OneMore(m1.log, DataConn(false));
  }

  lemma DropAllKeeps(m: Machine, event: AgpsEvent)
    requires AlwaysOk(m) && !event.EventSubscribe?
    ensures MachineOk(DropAll(m, event))
  {
    UnconcernedOk(m.list, ForAll);
  }

  lemma EndReleaseKeeps(m: Machine)
    requires AlwaysOk(m)
    ensures MachineOk(EndRelease(m))
  {
    UnconcernedOk(m.list, ForInactive);
    NotesAreNoInstructions(m.log, m.list, EventReleased, ForInactive);
    OneMore(m.log + Notes(m.list, EventReleased, ForInactive), DataConn(true));
    var k := Unconcerned(m.list, ForInactive);
    assert k != [] ==> k[0].isInactive || AnyActive(k);
  }

  lemma StepKeeps(m: Machine, e: Input)
    requires AlwaysOk(m)
    ensures AlwaysOk(Step(m, e)) && (MachineOk(m) && !e.ModemRestart? ==> MachineOk(Step(m, e)))
  {
    match e
    case Request(h, wait) => SubscribeKeeps(m, AgpsSubscriber(h, wait, false));
    case Release(h) =>
      if Has(m.list, h) {
        AboutFind(m.list, h);
        UnsubscribeKeeps(m, Find(m.list, h));
      } else {
        OneMore(m.log, AtlCloseStatus(h, false));
      }
    case Granted => NotesAreNoInstructions(m.log, m.list, EventGranted, ForActive);
    case Released =>
      if m.state.StateAcquired? { DropAllKeeps(m, EventReleased); }
      else if m.state.StateReleasing? { EndReleaseKeeps(m); }
    case Denied =>
      if m.state.StatePending? { DropAllKeeps(m, EventDenied); }
      else if m.state.StateReleasing? { EndReleaseKeeps(m); }
    case ModemRestart =>
  }

  /**
  Over all runs the machine is released only with an empty list, handles are distinct and the
  framework's last instruction fits the state; without a modem restart, released is exactly
  empty, a pending or acquired connection has an active subscriber and a releasing one an inactive.
  */
  lemma {:induction false} RunsAreOk(es: seq<Input>)
    ensures AlwaysOk(Run(es))
    ensures ModemRestart !in es ==> MachineOk(Run(es))
  {
    if es != [] {
      var es0, e := es[..|es| - 1], es[|es| - 1];
      assert es == es0 + [e];
      RunsAreOk(es0);
      StepKeeps(Run(es0), e);
    }
  }

  /** After a modem restart the state may outlive the list. */
  lemma RestartLeavesStateBehind()
    ensures var m := Run([Request(1, false), ModemRestart]); m.list == [] && m.state.StatePending?
  {
    var es := [Request(1, false), ModemRestart];
    assert es[..1] == [Request(1, false)] && es[..1][..0] == [];
    assert Run(es[..1]).state.StatePending?;
  }

  // ---------------------------------------------------------------- agreement under modem restarts

  /** What also survives modem restarts: a connection without an active subscriber has none at all. */
  ghost predicate ReachOk(m: Machine) {
    && AlwaysOk(m)
    && (m.state.StatePending? || m.state.StateAcquired? ==> AnyActive(m.list) || m.list == [])
  }

  /** A restart separates state and list unless the machine is released. */
  predicate Separates(m: Machine, e: Input) { e.ModemRestart? && !m.state.StateReleased? }

  /**
  The events after which they agree again: a request for a connection that is there or asked for, the
  end of a connection or of a release, and, while releasing, a subscriber that has to wait for the end
  or that is the last to leave.
  */
  ghost predicate Reconciles(m: Machine, e: Input) {
    match e
    case Request(_, _) => m.state.StatePending? || m.state.StateAcquired?
    case Released => m.state.StateAcquired? || m.state.StateReleasing?
    case Denied => m.state.StatePending? || m.state.StateReleasing?
    case Release(h) =>
      && m.state.StateReleasing? && Has(m.list, h)
      && (Find(m.list, h).waitForCloseComplete || Without(m.list, h) == [])
    case _ => false
  }

  lemma RequestAgreesIff(m: Machine, s: AgpsSubscriber)
    requires ReachOk(m) && !s.isInactive
    ensures var m' := OnSubscribe(m, s);
      ReachOk(m') && (MachineOk(m') <==> MachineOk(m) || m.state.StatePending? || m.state.StateAcquired?)
  {
    SubscribeKeeps(m, s);
    AddOk(m.list, s);
    var k := Add(m.list, s);
    forall i | 0 <= i < |k| ensures k[i].isInactive ==> i < |m.list| && m.list[i] == k[i] {}
  }

  /** While releasing, with nobody inactive: what a leaver leaves behind. */
  lemma LeaveReconcilesIff(m: Machine, s: AgpsSubscriber)
    requires AlwaysOk(m) && m.state.StateReleasing? && !AnyInactive(m.list) && s in m.list
    ensures MachineOk(OnUnsubscribe(m, s)) <==> s.waitForCloseComplete || Without(m.list, s.connHandle) == []
  {
    UnsubscribeKeeps(m, s);
    LeaveOk(m, s);
    if s.waitForCloseComplete {
      MarkOk(m.list, s);
      AboutMark(m.list, s.connHandle);
    } else {
      AboutKeep(m.list, OtherThan(s.connHandle));
      var k := Without(m.list, s.connHandle);
      forall i | 0 <= i < |k| ensures !k[i].isInactive {
        var j :| 0 <= j < |m.list| && m.list[j] == k[i];
      }
    }
  }

  lemma ReleaseAgreesIff(m: Machine, h: int)
    requires ReachOk(m) && Has(m.list, h)
    ensures var m' := Step(m, Release(h));
      ReachOk(m') && (MachineOk(m') <==> MachineOk(m) || Reconciles(m, Release(h)))
  {
    var s := Find(m.list, h);
    AboutFind(m.list, h);
    UnsubscribeKeeps(m, s);
    if !MachineOk(m) {
      LeaveReconcilesIff(m, s);
    }
  }

  /** One event: it separates, it reconciles, or it leaves agreement as it was. */
  lemma StepAgreesIff(m: Machine, e: Input)
    requires ReachOk(m)
    ensures ReachOk(Step(m, e))
    ensures MachineOk(Step(m, e)) <==> !Separates(m, e) && (MachineOk(m) || Reconciles(m, e))
  {
    StepKeeps(m, e);
    match e
    case Request(h, wait) => RequestAgreesIff(m, AgpsSubscriber(h, wait, false));
    case Release(h) => if Has(m.list, h) { ReleaseAgreesIff(m, h); }
    case Released =>
      if m.state.StateAcquired? { DropAllKeeps(m, EventReleased); }
      else if m.state.StateReleasing? { EndReleaseKeeps(m); }
    case Denied =>
      if m.state.StatePending? { DropAllKeeps(m, EventDenied); }
      else if m.state.StateReleasing? { EndReleaseKeeps(m); }
    case _ =>
  }

  ghost predicate SeparatedAt(es: seq<Input>, i: nat)
    requires i < |es|
  {
    Separates(Run(es[..i]), es[i])
  }

  ghost predicate ReconciledAt(es: seq<Input>, i: nat)
    requires i < |es|
  {
    Reconciles(Run(es[..i]), es[i])
  }

  /** Every separation of the run was followed by a reconciliation. */
  ghost predicate AllReconciled(es: seq<Input>) {
    forall i :: 0 <= i < |es| && SeparatedAt(es, i) ==> exists j :: i < j < |es| && ReconciledAt(es, j)
  }

  lemma PrefixEvents(es: seq<Input>, e: Input, i: nat)
    requires i < |es|
    ensures SeparatedAt(es + [e], i) == SeparatedAt(es, i) && ReconciledAt(es + [e], i) == ReconciledAt(es, i)
  {
    assert (es + [e])[..i] == es[..i];
  }

  lemma {:induction false} AllReconciledStep(es: seq<Input>, e: Input)
    ensures AllReconciled(es + [e]) <==>
      !Separates(Run(es), e) && (AllReconciled(es) || Reconciles(Run(es), e))
  {
    var n, all := |es|, es + [e];
    assert all[..n] == es;
    assert SeparatedAt(all, n) == Separates(Run(es), e) && ReconciledAt(all, n) == Reconciles(Run(es), e);
    forall i: nat | i < n { PrefixEvents(es, e, i); }
    if AllReconciled(all) && !ReconciledAt(all, n) {
      forall i | 0 <= i < n && SeparatedAt(es, i) ensures exists j :: i < j < n && ReconciledAt(es, j) {
        assert SeparatedAt(all, i);
        var j :| i < j < |all| && ReconciledAt(all, j);
        assert ReconciledAt(es, j);
      }
    }
    if AllReconciled(es) && !SeparatedAt(all, n) {
      forall i | 0 <= i < |all| && SeparatedAt(all, i) ensures exists j :: i < j < |all| && ReconciledAt(all, j) {
        assert SeparatedAt(es, i);
        var j :| i < j < n && ReconciledAt(es, j);
        assert ReconciledAt(all, j);
      }
    }
    if ReconciledAt(all, n) && !SeparatedAt(all, n) {
      assert forall i :: 0 <= i < |all| && SeparatedAt(all, i) ==> i < n;
    }
  }

  /**
  After any run, modem restarts included, state and list agree exactly if every restart that hit a
  machine that was not released has been followed by an event that reconciles them.
  */
  lemma {:induction false} AgreementIff(es: seq<Input>)
    ensures ReachOk(Run(es))
    ensures MachineOk(Run(es)) <==> AllReconciled(es)
  {
    if es != [] {
      var es0, e := es[..|es| - 1], es[|es| - 1];
      assert es == es0 + [e];
      AgreementIff(es0);
      StepAgreesIff(Run(es0), e);
      AllReconciledStep(es0, e);
    }
  }

  // ---------------------------------------------------------------- terminal callbacks

  predicate Terminal(c: Callback, h: int) {
    c == AtlOpenStatus(h, false) || c == AtlCloseStatus(h, true)
  }

  ghost function Terminals(cs: seq<Callback>, h: int): nat {
    if cs == [] then 0
    else Terminals(cs[..|cs| - 1], h) + if Terminal(cs[|cs| - 1], h) then 1 else 0
  }

  ghost function In(l: Subscribers, h: int): nat { if Has(l, h) then 1 else 0 }

  lemma TerminalsAppend(cs: seq<Callback>, c: Callback, h: int)
    ensures Terminals(cs + [c], h) == Terminals(cs, h) + if Terminal(c, h) then 1 else 0
  {
    assert (cs + [c])[..|cs|] == cs;
  }

  lemma UnconcernedHandles(l: Subscribers, who: NotificationType, h: int)
    ensures Has(Unconcerned(l, who), h) ==> Has(l, h)
  {
    AboutKeep(l, Spared(who));
    var k := Unconcerned(l, who);
    if i :| 0 <= i < |k| && k[i].connHandle == h {
      var j :| 0 <= j < |l| && l[j] == k[i];
    }
  }

  /** Of the subscribers a notification concerns, each is told once. */
  lemma {:induction false} NotedOnce(cs: seq<Callback>, l: Subscribers, event: AgpsEvent, who: NotificationType, h: int)
    requires Distinct(l) && (event.EventReleased? || event.EventDenied?)
    ensures Terminals(cs + Notes(l, event, who), h) == Terminals(cs, h) + In(l, h) - In(Unconcerned(l, who), h)
    decreases |l|
  {
    if l == [] {
      assert cs + [] == cs;
    } else {
      var x, l' := l[0], l[1..];
      NotesStep(cs, l, event, who);
      assert l == [x] + l';
      InPrepend(x, l', h);
      InPrepend(x, Unconcerned(l', who), h);
      UnconcernedHandles(l', who, h);
      assert Has(l', h) ==> x.connHandle != h;
      if Concerns(who, x) {
        assert Unconcerned(l, who) == Unconcerned(l', who);
        TerminalsAppend(cs, Note(event, x), h);
        NotedOnce(cs + [Note(event, x)], l', event, who, h);
      } else {
        NotedOnce(cs, l', event, who, h);
      }
    }
  }

  lemma InPrepend(x: AgpsSubscriber, l: Subscribers, h: int)
    ensures Has([x] + l, h) <==> Has(l, h) || x.connHandle == h
  {
    if i :| 0 <= i < |l| && l[i].connHandle == h { assert ([x] + l)[i + 1].connHandle == h; }
    assert ([x] + l)[0] == x;
  }

  lemma {:induction false} GrantsAreNotTerminal(cs: seq<Callback>, l: Subscribers, who: NotificationType, h: int)
    ensures Terminals(cs + Notes(l, EventGranted, who), h) == Terminals(cs, h)
    decreases |l|
  {
    if l == [] {
      assert cs + [] == cs;
    } else {
      NotesStep(cs, l, EventGranted, who);
      if Concerns(who, l[0]) {
        TerminalsAppend(cs, Note(EventGranted, l[0]), h);
        GrantsAreNotTerminal(cs + [Note(EventGranted, l[0])], l[1..], who, h);
      } else {
        GrantsAreNotTerminal(cs, l[1..], who, h);
      }
    }
  }

  lemma InAppend(l: Subscribers, x: AgpsSubscriber, h: int)
    ensures Has(l + [x], h) <==> Has(l, h) || x.connHandle == h
  {
    if i :| 0 <= i < |l| && l[i].connHandle == h { assert (l + [x])[i].connHandle == h; }
    assert (l + [x])[|l|] == x;
  }

  lemma MarkKeepsHandles(l: Subscribers, h: int, g: int)
    ensures Has(MarkInactive(l, h), g) <==> Has(l, g)
  {
    AboutMark(l, h);
    if i :| 0 <= i < |l| && l[i].connHandle == g { assert MarkInactive(l, h)[i].connHandle == g; }
  }

  lemma WithoutHandles(l: Subscribers, h: int, g: int)
    ensures Has(Without(l, h), g) <==> Has(l, g) && g != h
  {
    var k := Without(l, h);
    AboutKeep(l, OtherThan(h));
    if i :| 0 <= i < |l| && l[i].connHandle == g && g != h {
      assert l[i] in k;
      var j :| 0 <= j < |k| && k[j] == l[i];
    }
    if j :| 0 <= j < |k| && k[j].connHandle == g {
      var i :| 0 <= i < |l| && l[i] == k[j];
    }
  }

  ghost predicate Left(m: Machine, m': Machine, h: int) { Has(m.list, h) && !Has(m'.list, h) }

  /** Between the two machines, h got one terminal callback if it left the list, and else none. */
  ghost predicate ToldIfLeft(m: Machine, m': Machine, h: int) {
    Terminals(m'.log, h) - Terminals(m.log, h) == if Left(m, m', h) then 1 else 0
  }

  lemma RequestTells(m: Machine, s: AgpsSubscriber, h: int)
    ensures ToldIfLeft(m, OnSubscribe(m, s), h)
  {
    AddKeepsHandles(m.list, s, h);
    match m.state
    case StateReleased => TerminalsAppend(m.log, DataConn(true), h);
    case StateAcquired => TerminalsAppend(m.log, Note(EventGranted, s), h);
    case _ =>
  }

  lemma AddKeepsHandles(l: Subscribers, s: AgpsSubscriber, h: int)
    ensures Has(l, h) ==> Has(Add(l, s), h)
  {
    InAppend(l, s, h);
  }

  lemma DropAllTells(m: Machine, event: AgpsEvent, h: int)
    requires Distinct(m.list) && (event.EventReleased? || event.EventDenied?)
    ensures ToldIfLeft(m, DropAll(m, event), h)
  {
    UnconcernedHandles(m.list, ForAll, h);
    NotedOnce(m.log, m.list, event, ForAll, h);
  }

  lemma EndReleaseTells(m: Machine, h: int)
    requires Distinct(m.list)
    ensures ToldIfLeft(m, EndRelease(m), h)
  {
    var log, k := m.log + Notes(m.list, EventReleased, ForInactive), Unconcerned(m.list, ForInactive);
    UnconcernedHandles(m.list, ForInactive, h);
    NotedOnce(m.log, m.list, EventReleased, ForInactive, h);
    TerminalsAppend(log, DataConn(true), h);
    assert EndRelease(m).list == k;
    assert EndRelease(m).log == if AnyActive(k) then log + [DataConn(true)] else log;
  }

  lemma LeaveTells(m: Machine, s: AgpsSubscriber, h: int)
    requires s in m.list
    ensures ToldIfLeft(m, Leave(m, s), h)
  {
    var j :| 0 <= j < |m.list| && m.list[j] == s;
    assert Has(m.list, s.connHandle);
    MarkKeepsHandles(m.list, s.connHandle, h);
    WithoutHandles(m.list, s.connHandle, h);
    TerminalsAppend(m.log, Note(EventUnsubscribe, s), h);
  }

  lemma UnsubscribeTells(m: Machine, s: AgpsSubscriber, h: int)
    requires AlwaysOk(m) && s in m.list
    ensures ToldIfLeft(m, OnUnsubscribe(m, s), h)
  {
    LeaveTells(m, s, h);
    TerminalsAppend(Leave(m, s).log, DataConn(false), h);
  }

  /**
  Except by a modem restart, a subscriber that leaves the list gets exactly one terminal
  callback (open failed, or closed) in that same step, and nobody else gets one.
  */
  lemma LeaversAreToldOnce(m: Machine, e: Input, h: int)
    requires AlwaysOk(m) && !e.ModemRestart?
    ensures ToldIfLeft(m, Step(m, e), h)
  {
    match e
    case Request(g, wait) => RequestTells(m, AgpsSubscriber(g, wait, false), h);
    case Release(g) =>
      if Has(m.list, g) {
        AboutFind(m.list, g);
        UnsubscribeTells(m, Find(m.list, g), h);
      } else {
        TerminalsAppend(m.log, AtlCloseStatus(g, false), h);
      }
    case Granted => GrantsAreNotTerminal(m.log, m.list, ForActive, h);
    case Released =>
      if m.state.StateAcquired? { DropAllTells(m, EventReleased, h); }
      else if m.state.StateReleasing? { EndReleaseTells(m, h); }
    case Denied =>
      if m.state.StatePending? { DropAllTells(m, EventDenied, h); }
      else if m.state.StateReleasing? { EndReleaseTells(m, h); }
  }

  /** The same over runs: any step of any run, restarts before it included. */
  lemma LeaversOfRunsAreToldOnce(es: seq<Input>, e: Input, h: int)
    requires !e.ModemRestart?
    ensures ToldIfLeft(Run(es), Run(es + [e]), h)
  {
    RunsAreOk(es);
    assert (es + [e])[..|es|] == es;
    LeaversAreToldOnce(Run(es), e, h);
  }

  // ---------------------------------------------------------------- open-success

  /** The callbacks of a step. */
  ghost function Fresh(m: Machine, m': Machine): seq<Callback> {
    if |m.log| <= |m'.log| then m'.log[|m.log|..] else []
  }

  /** Told open-success since joining: told before while in the list, or in this step. */
  ghost function ToldAfter(told: set<int>, m: Machine, m': Machine): set<int> {
    set s | s in m'.list && ((Has(m.list, s.connHandle) && s.connHandle in told)
                             || AtlOpenStatus(s.connHandle, true) in Fresh(m, m')) :: s.connHandle
  }

  ghost function Told(es: seq<Input>): set<int> {
    if es == [] then {}
    else
      var m := Run(es[..|es| - 1]);
      ToldAfter(Told(es[..|es| - 1]), m, Step(m, es[|es| - 1]))
  }

  ghost predicate ToldOk(told: set<int>, m: Machine) {
    forall s :: s in m.list && !s.isInactive ==> (s.connHandle in told <==> m.state.StateAcquired?)
  }

  lemma {:induction false} WhoIsNoted(l: Subscribers, event: AgpsEvent, who: NotificationType, c: Callback)
    requires !event.EventSubscribe?
    ensures c in Notes(l, event, who) <==> exists s :: s in l && Concerns(who, s) && Note(event, s) == c
  {
    if l != [] {
      WhoIsNoted(l[1..], event, who, c);
      assert l == [l[0]] + l[1..];
      assert forall s :: s in l <==> s in l[1..] || s == l[0];
    }
  }

  /** A step that tells nobody open-success, keeps the active or adds unserved ones. */
  ghost predicate Quiet(m: Machine, m': Machine) {
    && (m'.state.StateAcquired? ==> m.state.StateAcquired?)
    && (m.state.StateAcquired? && !m'.state.StateAcquired? ==> !AnyActive(m'.list))
    && (forall s :: s in m'.list && !s.isInactive ==>
          s in m.list || (!m'.state.StateAcquired? && !Has(m.list, s.connHandle)))
    && (forall h :: AtlOpenStatus(h, true) !in Fresh(m, m'))
  }

  lemma QuietKeepsTold(told: set<int>, m: Machine, m': Machine)
    requires ToldOk(told, m) && Quiet(m, m')
    ensures ToldOk(ToldAfter(told, m, m'), m')
  {
    forall s | s in m'.list && !s.isInactive
      ensures s.connHandle in ToldAfter(told, m, m') <==> m'.state.StateAcquired?
    {
      var i :| 0 <= i < |m'.list| && m'.list[i] == s;
      if s in m.list {
        var j :| 0 <= j < |m.list| && m.list[j] == s;
        assert Has(m.list, s.connHandle);
      }
    }
  }

  lemma RequestKeepsTold(told: set<int>, m: Machine, s: AgpsSubscriber)
    requires ToldOk(told, m) && AlwaysOk(m) && !s.isInactive
    ensures var m' := OnSubscribe(m, s); ToldOk(ToldAfter(told, m, m'), m')
  {
    var m' := OnSubscribe(m, s);
    if m.state.StateAcquired? {
      assert Fresh(m, m') == [AtlOpenStatus(s.connHandle, true)];
      forall x | x in m'.list && !x.isInactive ensures x.connHandle in ToldAfter(told, m, m') {
        if x in m.list { var j :| 0 <= j < |m.list| && m.list[j] == x; }
      }
    } else {
      assert Fresh(m, m') == [] || Fresh(m, m') == [DataConn(true)];
      QuietKeepsTold(told, m, m');
    }
  }

  lemma GrantKeepsTold(told: set<int>, m: Machine)
    requires ToldOk(told, m)
    ensures ToldOk(ToldAfter(told, m, OnGranted(m)), OnGranted(m))
  {
    var m' := OnGranted(m);
    if m.state.StatePending? {
      assert Fresh(m, m') == Notes(m.list, EventGranted, ForActive);
      forall s | s in m'.list && !s.isInactive ensures s.connHandle in ToldAfter(told, m, m') {
        WhoIsNoted(m.list, EventGranted, ForActive, AtlOpenStatus(s.connHandle, true));
        assert Note(EventGranted, s) == AtlOpenStatus(s.connHandle, true);
      }
    } else {
      QuietKeepsTold(told, m, m');
    }
  }

  lemma UnsubscribeIsQuiet(m: Machine, s: AgpsSubscriber)
    requires AlwaysOk(m) && s in m.list
    ensures Quiet(m, OnUnsubscribe(m, s))
  {
    var m' := OnUnsubscribe(m, s);
    var closed := if s.waitForCloseComplete then [] else [Note(EventUnsubscribe, s)];
    assert Leave(m, s).log == m.log + closed;
    assert Fresh(m, m') == closed || Fresh(m, m') == closed + [DataConn(false)];
    if s.waitForCloseComplete {
      AboutMark(m.list, s.connHandle);
    } else {
      AboutKeep(m.list, OtherThan(s.connHandle));
    }
  }

  lemma EndReleaseIsQuiet(m: Machine)
    requires m.state.StateReleasing?
    ensures Quiet(m, EndRelease(m))
  {
    var notes := Notes(m.list, EventReleased, ForInactive);
    var m' := EndRelease(m);
    assert Fresh(m, m') == notes || Fresh(m, m') == notes + [DataConn(true)];
    forall h ensures AtlOpenStatus(h, true) !in Fresh(m, m') {
      WhoIsNoted(m.list, EventReleased, ForInactive, AtlOpenStatus(h, true));
    }
    AboutKeep(m.list, Spared(ForInactive));
  }

  lemma DropAllIsQuiet(m: Machine, event: AgpsEvent)
    requires AlwaysOk(m) && (event.EventReleased? || event.EventDenied?)
    ensures Quiet(m, DropAll(m, event))
  {
    UnconcernedOk(m.list, ForAll);
    forall h ensures AtlOpenStatus(h, true) !in Fresh(m, DropAll(m, event)) {
      WhoIsNoted(m.list, event, ForAll, AtlOpenStatus(h, true));
      assert Fresh(m, DropAll(m, event)) == Notes(m.list, event, ForAll);
    }
  }

  lemma {:induction false} StepKeepsTold(told: set<int>, m: Machine, e: Input)
    requires ToldOk(told, m) && AlwaysOk(m)
    ensures ToldOk(ToldAfter(told, m, Step(m, e)), Step(m, e))
  {
    match e
    case Request(h, wait) => RequestKeepsTold(told, m, AgpsSubscriber(h, wait, false));
    case Granted => GrantKeepsTold(told, m);
    case Release(h) =>
      if Has(m.list, h) {
        AboutFind(m.list, h);
        UnsubscribeIsQuiet(m, Find(m.list, h));
      }
      QuietKeepsTold(told, m, Step(m, e));
    case _ =>
      if e.Released? && m.state.StateAcquired? {
        DropAllIsQuiet(m, EventReleased);
      } else if e.Denied? && m.state.StatePending? {
        DropAllIsQuiet(m, EventDenied);
      } else if m.state.StateReleasing? && (e.Released? || e.Denied?) {
        EndReleaseIsQuiet(m);
      }
      QuietKeepsTold(told, m, Step(m, e));
  }

  /** Over all runs, an active subscriber has been told open-success exactly while ACQUIRED. */
  lemma {:induction false} ActiveAreToldIffAcquired(es: seq<Input>)
    ensures ToldOk(Told(es), Run(es))
  {
    if es != [] {
      var es0 := es[..|es| - 1];
      ActiveAreToldIffAcquired(es0);
      RunsAreOk(es0);
      StepKeepsTold(Told(es0), Run(es0), es[|es| - 1]);
    }
  }
}
