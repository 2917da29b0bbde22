/**
AgpsStateMachine and AgpsManager as objects: the subscriber list is edited in place by the
loops of gps/gnss/Agps.cpp, proved against the event functions of AgpsMachine.
*/
module Agps {
  import opened AgpsMachine
  import opened AgpsSafety

  class AgpsStateMachine {
    var mSubscriberList: Subscribers
    var mCurrentSubscriber: AgpsSubscriber
    var mState: AgpsState
    var log: seq<Callback>

    ghost function Value(): Machine
      reads this
    {
      Machine(mState, mSubscriberList, log)
    }

    constructor ()
      ensures Value() == Initial
    {
      mSubscriberList, mCurrentSubscriber, mState, log := [], AgpsSubscriber(0, false, false), StateReleased, [];
    }

    method ProcessAgpsEvent(event: AgpsEvent)
      requires event.EventUnsubscribe? && !mState.StateReleased? ==>
                 Has(mSubscriberList, mCurrentSubscriber.connHandle)
      modifies this
      ensures mCurrentSubscriber == old(mCurrentSubscriber)
      ensures Value() == match event
                         case EventSubscribe => OnSubscribe(old(Value()), mCurrentSubscriber)
                         case EventUnsubscribe => OnUnsubscribe(old(Value()), mCurrentSubscriber)
                         case EventGranted => OnGranted(old(Value()))
                         case EventReleased => OnReleased(old(Value()))
                         case EventDenied => OnDenied(old(Value()))
    {
      match event
      case EventSubscribe => ProcessSubscribe();
      case EventUnsubscribe => ProcessUnsubscribe();
      case EventGranted => ProcessGranted();
      case EventReleased => ProcessReleased();
      case EventDenied => ProcessDenied();
    }

    method ProcessSubscribe()
      modifies `mSubscriberList, `mState, `log
      ensures Value() == OnSubscribe(old(Value()), mCurrentSubscriber)
    {
      match mState
      case StateReleased =>
        AddSubscriber(mCurrentSubscriber);
        RequestOrReleaseDataConn(true);
        mState := StatePending;
      case StatePending =>
        AddSubscriber(mCurrentSubscriber);
      case StateAcquired =>
        NotifyEventToSubscriber(EventGranted, mCurrentSubscriber, false);
        AddSubscriber(mCurrentSubscriber);
      case StateReleasing =>
        AddSubscriber(mCurrentSubscriber);
    }

    method ProcessUnsubscribe()
      modifies `mSubscriberList, `mState, `log
      ensures Value() == OnUnsubscribe(old(Value()), mCurrentSubscriber)
    {
      if mState.StateReleased? {
        NotifyEventToSubscriber(EventUnsubscribe, mCurrentSubscriber, false);
        return;
      }
      if mCurrentSubscriber.waitForCloseComplete {
        SetInactive(mCurrentSubscriber.connHandle);
      } else {
        NotifyEventToSubscriber(EventUnsubscribe, mCurrentSubscriber, true);
      }
      assert Value() == Leave(old(Value()), mCurrentSubscriber);
      if mState.StateReleasing? {
        if mSubscriberList == [] {
          mState := StateReleased;
        }
      } else {
        var anyActive := AnyActiveSubscribers();
        if mSubscriberList == [] {
          mState := StateReleased;
          RequestOrReleaseDataConn(false);
        } else if !anyActive {
          mState := StateReleasing;
          RequestOrReleaseDataConn(false);
        }
      }
    }

    method ProcessGranted()
      modifies `mSubscriberList, `mState, `log
      ensures Value() == OnGranted(old(Value()))
    {
      if mState.StatePending? {
        mState := StateAcquired;
        NotifyAllSubscribers(EventGranted, false, ForActive);
      }
    }

    method ProcessReleased()
      modifies `mSubscriberList, `mState, `log
      ensures Value() == OnReleased(old(Value()))
    {
      match mState
      case StateReleased =>
      case StateAcquired =>
        mState := StateReleased;
        NotifyAllSubscribers(EventReleased, true, ForAll);
      case StateReleasing =>
        FinishReleasing();
      case StatePending =>
    }

    method ProcessDenied()
      modifies `mSubscriberList, `mState, `log
      ensures Value() == OnDenied(old(Value()))
    {
      match mState
      case StateReleased =>
      case StateAcquired =>
      case StateReleasing =>
        FinishReleasing();
      case StatePending =>
        mState := StateReleased;
        NotifyAllSubscribers(EventDenied, true, ForAll);
    }

    /** The branch that RELEASED and DENIED share in the releasing state. */
    method FinishReleasing()
      modifies `mSubscriberList, `mState, `log
      ensures Value() == EndRelease(old(Value()))
    {
      NotifyAllSubscribers(EventReleased, true, ForInactive);
      var anyActive := AnyActiveSubscribers();
      if anyActive {
        mState := StatePending;
        RequestOrReleaseDataConn(true);
      } else {
        mState := StateReleased;
      }
    }

    method RequestOrReleaseDataConn(request: bool)
      modifies `log
      ensures log == old(log) + [DataConn(request)]
    {
      log := log + [DataConn(request)];
    }

    /** Notifies while iterating, and erases the notified ones if asked to. */
    method NotifyAllSubscribers(event: AgpsEvent, deleteSubscriberPostNotify: bool, who: NotificationType)
      requires !event.EventSubscribe?
      modifies `mSubscriberList, `log
      ensures log == old(log) + Notes(old(mSubscriberList), event, who)
      ensures mSubscriberList ==
        if deleteSubscriberPostNotify then Unconcerned(old(mSubscriberList), who) else old(mSubscriberList)
    {
      var it := 0;
      ghost var kept: Subscribers, rest := [], mSubscriberList;
      while it < |mSubscriberList|
        invariant mSubscriberList == kept + rest && it == |kept|
        invariant if deleteSubscriberPostNotify
                  then kept + Unconcerned(rest, who) == Unconcerned(old(mSubscriberList), who)
                  else mSubscriberList == old(mSubscriberList)
        invariant log + Notes(rest, event, who) == old(log) + Notes(old(mSubscriberList), event, who)
        decreases |rest|
      {
        IteratorStep(kept, rest);
        KeepStep(kept, rest, Spared(who));
        NotesStep(log, rest, event, who);
        var subscriber := mSubscriberList[it];
        if Concerns(who, subscriber) {
          NotifyEventToSubscriber(event, subscriber, false);
        }
        if Concerns(who, subscriber) && deleteSubscriberPostNotify {
          mSubscriberList := mSubscriberList[..it] + mSubscriberList[it + 1..];
        } else {
          it := it + 1;
          kept := kept + [subscriber];
        }
        rest := rest[1..];
      }
    }

    method NotifyEventToSubscriber(event: AgpsEvent, subscriberToNotify: AgpsSubscriber,
                                   deleteSubscriberPostNotify: bool)
      requires !event.EventSubscribe?
      modifies `mSubscriberList, `log
      ensures log == old(log) + [Note(event, subscriberToNotify)]
      ensures mSubscriberList == if deleteSubscriberPostNotify
        then Without(old(mSubscriberList), subscriberToNotify.connHandle) else old(mSubscriberList)
    {
      log := log + [Note(event, subscriberToNotify)];
      if deleteSubscriberPostNotify {
        DeleteSubscriber(subscriberToNotify);
      }
    }

    method AddSubscriber(subscriberToAdd: AgpsSubscriber)
      modifies `mSubscriberList
      ensures mSubscriberList == Add(old(mSubscriberList), subscriberToAdd)
    {
      for it := 0 to |mSubscriberList|
        invariant mSubscriberList == old(mSubscriberList)
        invariant forall i :: 0 <= i < it ==> mSubscriberList[i].connHandle != subscriberToAdd.connHandle
      {
        if mSubscriberList[it].connHandle == subscriberToAdd.connHandle {
          return;
        }
      }
      mSubscriberList := mSubscriberList + [subscriberToAdd];
    }

    method DeleteSubscriber(subscriberToDelete: AgpsSubscriber)
      modifies `mSubscriberList
      ensures mSubscriberList == Without(old(mSubscriberList), subscriberToDelete.connHandle)
    {
      var it := 0;
      ghost var kept: Subscribers, rest := [], mSubscriberList;
      while it < |mSubscriberList|
        invariant mSubscriberList == kept + rest && it == |kept|
        invariant kept + Without(rest, subscriberToDelete.connHandle) ==
                  Without(old(mSubscriberList), subscriberToDelete.connHandle)
        decreases |rest|
      {
        IteratorStep(kept, rest);
        KeepStep(kept, rest, OtherThan(subscriberToDelete.connHandle));
        if mSubscriberList[it].connHandle == subscriberToDelete.connHandle {
          mSubscriberList := mSubscriberList[..it] + mSubscriberList[it + 1..];
        } else {
          kept := kept + [mSubscriberList[it]];
          it := it + 1;
        }
        rest := rest[1..];
      }
    }

    /** The write through mCurrentSubscriber, which points at the first list entry with the handle. */
    method SetInactive(connHandle: int)
      modifies `mSubscriberList
      ensures mSubscriberList == MarkInactive(old(mSubscriberList), connHandle)
    {
      var it := 0;
      while it < |mSubscriberList| && mSubscriberList[it].connHandle != connHandle
        invariant 0 <= it <= |mSubscriberList| && mSubscriberList == old(mSubscriberList)
        invariant forall i :: 0 <= i < it ==> mSubscriberList[i].connHandle != connHandle
      {
        it := it + 1;
      }
      MarkAtFirst(mSubscriberList, connHandle, it);
      if it < |mSubscriberList| {
        mSubscriberList := mSubscriberList[it := mSubscriberList[it].(isInactive := true)];
      }
    }

    method AnyActiveSubscribers() returns (any: bool)
      ensures any <==> AnyActive(mSubscriberList)
    {
      for it := 0 to |mSubscriberList|
        invariant forall i :: 0 <= i < it ==> mSubscriberList[i].isInactive
      {
        if !mSubscriberList[it].isInactive {
          return true;
        }
      }
      return false;
    }

    method GetSubscriber(connHandle: int) returns (found: bool, subscriber: AgpsSubscriber)
      ensures found <==> Has(mSubscriberList, connHandle)
      ensures found ==> subscriber == Find(mSubscriberList, connHandle)
    {
      found, subscriber := false, AgpsSubscriber(connHandle, false, false);
      for it := 0 to |mSubscriberList|
        invariant forall i :: 0 <= i < it ==> mSubscriberList[i].connHandle != connHandle
        invariant forall i :: it <= i < |mSubscriberList| && mSubscriberList[i].connHandle == connHandle ==>
          && Has(mSubscriberList[it..], connHandle)
          && Find(mSubscriberList, connHandle) == Find(mSubscriberList[it..], connHandle)
      {
        if mSubscriberList[it].connHandle == connHandle {
          return true, mSubscriberList[it];
        }
      }
    }

    method DropAllSubscribers()
      modifies `mSubscriberList
      ensures Value() == OnModemRestart(old(Value()))
    {
      while mSubscriberList != []
        decreases |mSubscriberList|
      {
        mSubscriberList := mSubscriberList[1..];
      }
    }
  }

  datatype AGpsExtType =
    | TYPE_INVALID | TYPE_ANY | TYPE_SUPL | TYPE_C2K | TYPE_WWAN_ANY | TYPE_WIFI | TYPE_SUPL_ES

  /** The manager without an emergency data connection: no DS machine is ever created. */
  class AgpsManager {
    var mAgnssNif: AgpsStateMachine?
    var mInternetNif: AgpsStateMachine?
    var log: seq<Callback>   // callbacks made without a machine

    ghost function Machines(): set<AgpsStateMachine>
      reads this
    {
      (if mAgnssNif == null then {} else {mAgnssNif}) + (if mInternetNif == null then {} else {mInternetNif})
    }

    ghost predicate Valid()
      reads this, Machines()
    {
      && (mAgnssNif != null ==> mAgnssNif != mInternetNif)
      && forall m :: m in Machines() ==> AlwaysOk(m.Value())
    }

    /** Every machine is in a state that its list justifies. */
    ghost predicate Justified()
      reads this, Machines()
    {
      forall m :: m in Machines() ==> MachineOk(m.Value())
    }

    constructor ()
      ensures Valid() && Justified() && Machines() == {} && log == []
    {
      mAgnssNif, mInternetNif, log := null, null, [];
    }

    method CreateAgpsStateMachines(agpsCapable: bool)
      requires Valid()
      modifies `mAgnssNif, `mInternetNif
      ensures Valid() && (old(Justified()) ==> Justified()) && fresh(Machines() - old(Machines()))
      ensures forall m :: m in Machines() && m !in old(Machines()) ==> m.Value() == Initial
      ensures mInternetNif != null && (agpsCapable ==> mAgnssNif != null)
      ensures old(mInternetNif) != null ==> mInternetNif == old(mInternetNif)
      ensures old(mAgnssNif) != null || !agpsCapable ==> mAgnssNif == old(mAgnssNif)
    {
      if mInternetNif == null {
        mInternetNif := new AgpsStateMachine();
      }
      if agpsCapable && mAgnssNif == null {
        mAgnssNif := new AgpsStateMachine();
      }
    }

    function GetAgpsStateMachine(agpsType: AGpsExtType): (sm: AgpsStateMachine?)
      reads this
      ensures sm == if agpsType in {TYPE_INVALID, TYPE_SUPL, TYPE_SUPL_ES} then mAgnssNif else mInternetNif
    {
      match agpsType
      case TYPE_INVALID => mAgnssNif
      case TYPE_SUPL => mAgnssNif
      case TYPE_SUPL_ES => mAgnssNif
      case _ => mInternetNif
    }

    /** Machine sm took the input, and the other one, if any, is as before. */
    twostate predicate Took(sm: AgpsStateMachine, e: Input)
      requires sm in old(Machines())
      reads this, Machines(), sm
    {
      && Machines() == old(Machines()) && log == old(log)
      && sm.Value() == AgpsMachine.Step(old(sm.Value()), e)
      && forall m :: m in Machines() && m in old(Machines()) && m != sm ==> m.Value() == old(m.Value())
    }

    twostate predicate NobodyTook()
      reads this, Machines()
    {
      && Machines() == old(Machines())
      && forall m :: m in Machines() && m in old(Machines()) ==> m.Value() == old(m.Value())
    }

    method RequestATL(connHandle: int, agpsType: AGpsExtType)
      requires Valid()
      modifies `log, Machines()
      ensures Valid() && (old(Justified()) ==> Justified())
      ensures var sm := old(GetAgpsStateMachine(agpsType));
        if sm == null then log == old(log) + [AtlOpenStatus(connHandle, false)] && NobodyTook()
        else Took(sm, Request(connHandle, agpsType.TYPE_SUPL_ES?))
    {
      var sm := GetAgpsStateMachine(agpsType);
      if sm == null {
        log := log + [AtlOpenStatus(connHandle, false)];
        return;
      }
      StepKeeps(sm.Value(), Request(connHandle, agpsType.TYPE_SUPL_ES?));
      sm.mCurrentSubscriber := AgpsSubscriber(connHandle, agpsType.TYPE_SUPL_ES?, false);
      sm.ProcessAgpsEvent(EventSubscribe);
    }

    /** The first machine, AGNSS before Internet, that has the handle is told to release it. */
    method ReleaseATL(connHandle: int)
      requires Valid()
      modifies `log, Machines()
      ensures Valid() && (old(Justified()) ==> Justified())
      ensures if old(mAgnssNif != null && Has(mAgnssNif.mSubscriberList, connHandle)) then
                Took(old(mAgnssNif), Release(connHandle))
              else if old(mInternetNif != null && Has(mInternetNif.mSubscriberList, connHandle)) then
                Took(old(mInternetNif), Release(connHandle))
              else
                log == old(log) + [AtlCloseStatus(connHandle, false)] && NobodyTook()
    {
      var sm: AgpsStateMachine? := null;
      var found, subscriber := false, AgpsSubscriber(connHandle, false, false);
      if mAgnssNif != null {
        found, subscriber := mAgnssNif.GetSubscriber(connHandle);
        if found { sm := mAgnssNif; }
      }
      if sm == null && mInternetNif != null {
        found, subscriber := mInternetNif.GetSubscriber(connHandle);
        if found { sm := mInternetNif; }
      }
      if sm == null {
        log := log + [AtlCloseStatus(connHandle, false)];
        return;
      }
      StepKeeps(sm.Value(), Release(connHandle));
      AboutFind(sm.mSubscriberList, connHandle);
      sm.mCurrentSubscriber := subscriber;
      sm.ProcessAgpsEvent(EventUnsubscribe);
    }

    /** The reports of the framework dereference the machine, so there must be one. */
    method ReportAtlOpenSuccess(agpsType: AGpsExtType)
      requires Valid() && GetAgpsStateMachine(agpsType) != null
      modifies Machines()
      ensures Valid() && (old(Justified()) ==> Justified()) && Took(old(GetAgpsStateMachine(agpsType)), Granted)
    {
      var sm := GetAgpsStateMachine(agpsType);
      StepKeeps(sm.Value(), Granted);
      sm.ProcessAgpsEvent(EventGranted);
    }

    method ReportAtlOpenFailed(agpsType: AGpsExtType)
      requires Valid() && GetAgpsStateMachine(agpsType) != null
      modifies Machines()
      ensures Valid() && (old(Justified()) ==> Justified()) && Took(old(GetAgpsStateMachine(agpsType)), Denied)
    {
      var sm := GetAgpsStateMachine(agpsType);
      StepKeeps(sm.Value(), Denied);
      sm.ProcessAgpsEvent(EventDenied);
    }

    method ReportAtlClosed(agpsType: AGpsExtType)
      requires Valid() && GetAgpsStateMachine(agpsType) != null
      modifies Machines()
      ensures Valid() && (old(Justified()) ==> Justified()) && Took(old(GetAgpsStateMachine(agpsType)), Released)
    {
      var sm := GetAgpsStateMachine(agpsType);
      StepKeeps(sm.Value(), Released);
      sm.ProcessAgpsEvent(EventReleased);
    }

    method HandleModemSSR()
      requires Valid()
      modifies Machines()
      ensures Valid() && Machines() == old(Machines())
      ensures forall m :: m in Machines() ==> m.Value() == AgpsMachine.Step(old(m.Value()), ModemRestart)
    {
      if mAgnssNif != null {
        mAgnssNif.DropAllSubscribers();
      }
      if mInternetNif != null {
        mInternetNif.DropAllSubscribers();
      }
    }
  }
}
