/** The session and geofence dictionaries of LocationAPIClientBase. */
module Sessions {
  import opened Options
  import opened BiDict
  import opened SessionIds
  import opened Geofences

  datatype SessionMode = MODE_NONE | MODE_ON_FULL | MODE_ON_FIX | MODE_ON_TRIP_COMPLETED

  datatype SessionEntity = SessionEntity(id: int, trackingSession: int, batchingSession: int, sessionMode: SessionMode)

  datatype LocationError = SUCCESS | GENERAL_FAILURE | ALREADY_STARTED | ID_UNKNOWN | NOT_SUPPORTED

  /** Calls on LocationAPI, with the session started or named. */
  datatype ApiCall =
    | StartTracking(session: int) | StopTracking(session: int) | UpdateTracking(session: int)
    | StartBatching(session: int, mode: SessionMode) | StopBatching(session: int)
    | UpdateBatching(session: int, mode: SessionMode) | GetBatchedLocations(session: int)

  datatype RequestKind = ForStart | ForStop | ForUpdate | ForBatched

  /** A queued request; session is the one it was queued for, of which the source keeps no record. */
  datatype Request = Request(kind: RequestKind, session: int)

  /** The session that runs for an entity: tracking in ON_FIX mode, batching in any other. */
  function Active(e: SessionEntity): int {
    if e.sessionMode.MODE_ON_FIX? then e.trackingSession else e.batchingSession
  }

  /** A bijection of ids and non-zero sessions whose entities name their id and active session. */
  ghost predicate SessionsOk(d: Dict<SessionEntity>) {
    && Bijective(d)
    && (forall s :: s in d.ext ==> s != 0 && Active(d.ext[s]) == s && d.ext[s].id == d.bwd[s])
  }

  /** The entity after its options change; started is the session it gets if it changes its kind. */
  function Moved(e: SessionEntity, mode: SessionMode, started: int): (r: SessionEntity)
    ensures r.id == e.id && r.sessionMode == mode
    ensures Active(r) == if e.sessionMode.MODE_ON_FIX? <==> mode.MODE_ON_FIX? then Active(e) else started
  {
    if e.sessionMode.MODE_ON_FIX? == mode.MODE_ON_FIX? then e.(sessionMode := mode)
    else if mode.MODE_ON_FIX? then SessionEntity(e.id, started, 0, mode)
    else SessionEntity(e.id, 0, started, mode)
  }

  /** What locAPIStartSession saves. */
  function NewEntity(id: int, mode: SessionMode, started: int): (r: SessionEntity)
    ensures r.id == id && r.sessionMode == mode && Active(r) == started
  {
    if mode.MODE_ON_FIX? then SessionEntity(id, started, 0, mode) else SessionEntity(id, 0, started, mode)
  }

  /** The onResponse of a request: a failed start, and a successful stop, remove the session. */
  predicate Removes(kind: RequestKind, error: bool) {
    (kind.ForStart? && error) || (kind.ForStop? && !error)
  }

  /** The sessions that run on LocationAPI after some calls: those started, and not stopped since. */
  ghost function Running(calls: seq<ApiCall>): set<int> {
    if calls == [] then {}
    else
      var before := Running(calls[..|calls| - 1]);
      match calls[|calls| - 1]
      case StartTracking(s) => before + {s}
      case StartBatching(s, _) => before + {s}
      case StopTracking(s) => before - {s}
      case StopBatching(s) => before - {s}
      case _ => before
  }

  lemma RunningStep(calls: seq<ApiCall>, c: ApiCall)
    ensures Running(calls + [c]) ==
      if c.StartTracking? || c.StartBatching? then Running(calls) + {c.session}
      else if c.StopTracking? || c.StopBatching? then Running(calls) - {c.session}
      else Running(calls)
  {
    assert (calls + [c])[..|calls|] == calls;
  }

  /** The sessions bound after an update. */
  lemma ReboundSessions(d: Dict<SessionEntity>, id: int, mode: SessionMode, started: int)
    requires SessionsOk(d) && id in d.fwd
    ensures var s := d.fwd[id];
      Rebound(d, id, Moved(d.ext[s], mode, started)).bwd.Keys ==
        if d.ext[s].sessionMode.MODE_ON_FIX? <==> mode.MODE_ON_FIX? then d.bwd.Keys else d.bwd.Keys - {s} + {started}
  {
  }

  /** An update that changes the kind stops the old session and starts the new one; else it keeps it. */
  lemma SwitchRuns(calls: seq<ApiCall>, fix: bool, mode: SessionMode, s: int, started: int)
    ensures Running(calls + Switch(fix, mode, s, started)) ==
      if fix <==> mode.MODE_ON_FIX? then Running(calls) else Running(calls) - {s} + {started}
  {
    var switch := Switch(fix, mode, s, started);
    RunningStep(calls, switch[0]);
    if |switch| == 2 {
      RunningStep(calls + [switch[0]], switch[1]);
      assert calls + switch == calls + [switch[0]] + [switch[1]];
    } else {
      assert switch == [switch[0]];
    }
  }

  /** A response is for the oldest request, whatever session that was queued for, if its own session is known. */
  ghost function Answered(d: Dict<SessionEntity>, queue: seq<Request>, session: int, error: bool)
    : (Dict<SessionEntity>, seq<Request>)
  {
    if session !in d.bwd || queue == [] then (d, queue)
    else (if Removes(queue[0].kind, error) then WithoutSession(d, session) else d, queue[1..])
  }

  ghost function Rebound(d: Dict<SessionEntity>, id: int, e: SessionEntity): Dict<SessionEntity>
    requires Bijective(d) && id in d.fwd
  {
    Bind(WithoutSession(d, d.fwd[id]), id, Active(e), e)
  }

  /** An id moves to a fresh session, or keeps its own; all the others stay as they were. */
  lemma UpdateKeepsOk(d: Dict<SessionEntity>, id: int, mode: SessionMode, started: int)
    requires SessionsOk(d) && id in d.fwd && IsFresh(d, started)
    ensures var s := d.fwd[id]; var fix := d.ext[s].sessionMode.MODE_ON_FIX?;
      var e := Moved(d.ext[s], mode, started); var d' := Rebound(d, id, e);
      && SessionsOk(d')
      && d'.fwd == d.fwd[id := if fix == mode.MODE_ON_FIX? then s else started]
      && d'.ext[d'.fwd[id]].sessionMode == mode
      && (forall t :: t in d.ext && t != s ==> t in d'.ext && d'.ext[t] == d.ext[t])
  {
    var s := d.fwd[id];
    var e := Moved(d.ext[s], mode, started);
    RemoveKeepsOk(d, s);
    BindKeepsBijectionIff(WithoutSession(d, s), id, Active(e), e);
    assert Rebound(d, id, e).fwd == d.fwd[id := Active(e)];
  }

  lemma RemoveKeepsOk(d: Dict<SessionEntity>, session: int)
    requires SessionsOk(d) && session in d.bwd
    ensures SessionsOk(WithoutSession(d, session))
  {
  }

  ghost predicate IsFresh(d: Dict<SessionEntity>, session: int) { session != 0 && session !in d.bwd }

  /** Call j of generateSessionId gave out the session, less than a full period before the next call. */
  ghost predicate GivenBy(j: nat, now: nat, session: int) {
    0 < j <= now && now + 1 - j < PERIOD && session == IdAfter(j)
  }

  /** The next id is fresh as long as every session in the dictionary is less than a full period old. */
  lemma GeneratedIdIsFresh(d: Dict<SessionEntity>, now: nat)
    requires forall s :: s in d.bwd ==> exists j: nat :: GivenBy(j, now, s)
    ensures IsFresh(d, IdAfter(now + 1))
  {
    var id := IdAfter(now + 1);
    IdsRepeatOnlyAfterFullPeriod(now + 1, now + 1);
    if id in d.bwd {
      var j: nat :| GivenBy(j, now, id);
      IdsRepeatOnlyAfterFullPeriod(j, now + 1);
      assert false;
    }
  }

  class LocationAPIClient {
    const mSessionBiDict: BiDict<SessionEntity>
    const mGeofenceBiDict: BiDict<int>
    var mLocationAPI: bool        // whether there is one
    var calls: seq<ApiCall>
    var mSessionRequests: seq<Request>   // the queue REQUEST_SESSION

    ghost predicate Valid()
      reads this, mSessionBiDict, mGeofenceBiDict
    {
      SessionsOk(mSessionBiDict.Value()) && Linked(mGeofenceBiDict.Value())
    }

    /** The sessions that are bound are those that run. */
    ghost predicate Tracks()
      reads this, mSessionBiDict
    {
      Running(calls) == Dictionary().bwd.Keys
    }

    ghost function Dictionary(): Dict<SessionEntity>
      reads mSessionBiDict
    {
      mSessionBiDict.Value()
    }

    constructor ()
      ensures Valid() && fresh(mSessionBiDict) && fresh(mGeofenceBiDict)
      ensures mLocationAPI && calls == [] && mSessionRequests == []
      ensures Dictionary() == Dict(map[], map[], map[]) && mGeofenceBiDict.Value() == Dict(map[], map[], map[])
    {
      mSessionBiDict := new BiDict<SessionEntity>();
      mGeofenceBiDict := new BiDict<int>();
      mLocationAPI, calls, mSessionRequests := true, [], [];
    }

    /** started is the session id that LocationAPI returns for the session it starts. */
    method StartSession(id: int, mode: SessionMode, started: int) returns (retVal: LocationError)
      requires Valid()
      modifies `calls, `mSessionRequests, mSessionBiDict
      ensures IsFresh(old(Dictionary()), started) ==> Valid()
      ensures retVal == if !mLocationAPI then GENERAL_FAILURE
                        else if id in old(Dictionary()).fwd then ALREADY_STARTED else SUCCESS
      ensures retVal != SUCCESS ==>
        Dictionary() == old(Dictionary()) && calls == old(calls) && mSessionRequests == old(mSessionRequests)
      ensures retVal == SUCCESS ==>
        && Dictionary() == Bind(old(Dictionary()), id, started, NewEntity(id, mode, started))
        && mSessionRequests == old(mSessionRequests) + [Request(ForStart, started)]
        && Dictionary().fwd[id] == started && Dictionary().ext[started].sessionMode == mode
        && (old(Tracks()) ==> Tracks())
        && calls == old(calls) + [if mode.MODE_ON_FIX? then ApiCall.StartTracking(started)
                                  else StartBatching(started, mode)]
    {
      retVal := GENERAL_FAILURE;
      if mLocationAPI {
        if mSessionBiDict.HasId(id) {
          retVal := ALREADY_STARTED;
        } else {
          var trackingSession, batchingSession := 0, 0;
          if mode.MODE_ON_FIX? {
            trackingSession := started;
            calls := calls + [ApiCall.StartTracking(trackingSession)];
            mSessionRequests := mSessionRequests + [Request(ForStart, trackingSession)];
          } else {
            batchingSession := started;
            calls := calls + [StartBatching(batchingSession, mode)];
            mSessionRequests := mSessionRequests + [Request(ForStart, batchingSession)];
          }
          RunningStep(old(calls), calls[|calls| - 1]);
          var session := if !mode.MODE_ON_FIX? then batchingSession else trackingSession;
          var entity := SessionEntity(id, trackingSession, batchingSession, mode);
          BindKeepsBijectionIff(mSessionBiDict.Value(), id, session, entity);
          mSessionBiDict.Set(id, session, entity);
          retVal := SUCCESS;
        }
      }
    }

    method StopSession(id: int) returns (retVal: LocationError)
      requires Valid()
      modifies `calls, `mSessionRequests
      ensures retVal == if !mLocationAPI then GENERAL_FAILURE
                        else if id in Dictionary().fwd then SUCCESS else ID_UNKNOWN
      ensures Running(calls) ==
        if retVal == SUCCESS then old(Running(calls)) - {Dictionary().fwd[id]} else old(Running(calls))
      ensures mSessionRequests == old(mSessionRequests) +
        if retVal == SUCCESS then [Request(ForStop, Dictionary().fwd[id])] else []
      ensures calls == if retVal != SUCCESS then old(calls) else
        var s := Dictionary().fwd[id];
        old(calls) + [if Dictionary().ext[s].sessionMode.MODE_ON_FIX? then ApiCall.StopTracking(s) else StopBatching(s)]
    {
      retVal := GENERAL_FAILURE;
      if mLocationAPI {
        if mSessionBiDict.HasId(id) {
          var entity := mSessionBiDict.mExtMap[mSessionBiDict.mForwardMap[id]];
          if entity.sessionMode.MODE_ON_FIX? {
            mSessionRequests := mSessionRequests + [Request(ForStop, entity.trackingSession)];
            calls := calls + [ApiCall.StopTracking(entity.trackingSession)];
          } else {
            mSessionRequests := mSessionRequests + [Request(ForStop, entity.batchingSession)];
            calls := calls + [StopBatching(entity.batchingSession)];
          }
          RunningStep(old(calls), calls[|calls| - 1]);
          retVal := SUCCESS;
        } else {
          retVal := ID_UNKNOWN;
        }
      }
    }

    /** A change between tracking and batching stops the old session and binds the one started instead. */
    method UpdateSessionOptions(id: int, mode: SessionMode, started: int) returns (retVal: LocationError)
      requires Valid()
      modifies `calls, `mSessionRequests, mSessionBiDict
      ensures IsFresh(old(Dictionary()), started) ==> Valid()
      ensures retVal == if !mLocationAPI then GENERAL_FAILURE
                        else if id in old(Dictionary()).fwd then SUCCESS else ID_UNKNOWN
      ensures retVal != SUCCESS ==>
        Dictionary() == old(Dictionary()) && calls == old(calls) && mSessionRequests == old(mSessionRequests)
      ensures retVal == SUCCESS ==>
        && id in Dictionary().fwd
        && mSessionRequests == old(mSessionRequests) + [Request(ForUpdate, Dictionary().fwd[id])]
      ensures retVal == SUCCESS ==>
        var s := old(Dictionary()).fwd[id]; var fix := old(Dictionary()).ext[s].sessionMode.MODE_ON_FIX?;
        && Dictionary() == Rebound(old(Dictionary()), id, Moved(old(Dictionary()).ext[s], mode, started))
        && calls == old(calls) + Switch(fix, mode, s, started)
      ensures retVal == SUCCESS && old(Tracks()) && IsFresh(old(Dictionary()), started) ==> Tracks()
    {
      retVal := GENERAL_FAILURE;
      if mLocationAPI {
        if mSessionBiDict.HasId(id) {
          var entity := mSessionBiDict.mExtMap[mSessionBiDict.mForwardMap[id]];
          if IsFresh(Dictionary(), started) {
            UpdateKeepsOk(Dictionary(), id, mode, started);
          }
          var trackingSession, batchingSession := entity.trackingSession, entity.batchingSession;
          if mode.MODE_ON_FIX? {
            if entity.sessionMode.MODE_ON_FIX? {
              calls := calls + [UpdateTracking(trackingSession)];
            } else {
              calls := calls + [StopBatching(batchingSession), ApiCall.StartTracking(started)];
              batchingSession := 0;
              trackingSession := started;
            }
          } else {
            if entity.sessionMode.MODE_ON_FIX? {
              calls := calls + [ApiCall.StopTracking(trackingSession), StartBatching(started, mode)];
              trackingSession := 0;
              batchingSession := started;
            } else {
              calls := calls + [UpdateBatching(batchingSession, mode)];
            }
          }
          var session := if !mode.MODE_ON_FIX? then batchingSession else trackingSession;
          entity := SessionEntity(entity.id, trackingSession, batchingSession, mode);
          ghost var was := Dictionary();
          ReboundSessions(was, id, mode, started);
          SwitchRuns(old(calls), was.ext[was.fwd[id]].sessionMode.MODE_ON_FIX?, mode, was.fwd[id], started);
          mSessionRequests := mSessionRequests + [Request(ForUpdate, session)];
          mSessionBiDict.RmById(id);
          mSessionBiDict.Set(id, session, entity);
          retVal := SUCCESS;
        } else {
          retVal := ID_UNKNOWN;
        }
      }
    }

    method GetBatchedLocations(id: int) returns (retVal: LocationError)
      requires Valid()
      modifies `calls, `mSessionRequests
      ensures retVal == if !mLocationAPI then GENERAL_FAILURE
                        else if id !in Dictionary().fwd then ID_UNKNOWN
                        else if Dictionary().ext[Dictionary().fwd[id]].sessionMode.MODE_ON_FIX? then NOT_SUPPORTED
                        else SUCCESS
      ensures retVal != SUCCESS ==> calls == old(calls) && mSessionRequests == old(mSessionRequests)
      ensures retVal == SUCCESS ==>
        && calls == old(calls) + [ApiCall.GetBatchedLocations(Dictionary().fwd[id])]
        && mSessionRequests == old(mSessionRequests) + [Request(ForBatched, Dictionary().fwd[id])]
    {
      retVal := GENERAL_FAILURE;
      if mLocationAPI {
        if mSessionBiDict.HasId(id) {
          var entity := mSessionBiDict.mExtMap[mSessionBiDict.mForwardMap[id]];
          if !entity.sessionMode.MODE_ON_FIX? {
            mSessionRequests := mSessionRequests + [Request(ForBatched, entity.batchingSession)];
            calls := calls + [ApiCall.GetBatchedLocations(entity.batchingSession)];
            retVal := SUCCESS;
          } else {
            retVal := NOT_SUPPORTED;
          }
        } else {
          retVal := ID_UNKNOWN;
        }
      }
    }

    /** onResponseCb, for a session that no other queue has a request for. */
    method OnResponse(error: bool, session: int)
      requires Valid()
      modifies `mSessionRequests, mSessionBiDict
      ensures Valid()
      ensures (Dictionary(), mSessionRequests) == Answered(old(Dictionary()), old(mSessionRequests), session, error)
    {
      if mSessionBiDict.HasSession(session) && mSessionRequests != [] {
        var request := mSessionRequests[0];
        mSessionRequests := mSessionRequests[1..];
        match request.kind
        case ForStart => OnStartResponse(error, session);
        case ForStop => OnStopResponse(error, session);
        case ForUpdate =>
        case ForBatched =>
      }
    }

    /** On a failed start, or a successful stop. */
    method RemoveSession(session: int)
      requires Valid()
      modifies mSessionBiDict
      ensures Valid()
      ensures Dictionary() == if session in old(Dictionary()).bwd then WithoutSession(old(Dictionary()), session)
                              else old(Dictionary())
    {
      if mSessionBiDict.HasSession(session) {
        RemoveKeepsOk(mSessionBiDict.Value(), session);
        mSessionBiDict.RmBySession(session);
      }
    }

    /** StartTrackingRequest and StartBatchingRequest::onResponse. */
    method OnStartResponse(error: bool, session: int)
      requires Valid()
      modifies mSessionBiDict
      ensures Valid()
      ensures Dictionary() == if error && session in old(Dictionary()).bwd
        then WithoutSession(old(Dictionary()), session) else old(Dictionary())
    {
      if error { RemoveSession(session); }
    }

    /** StopTrackingRequest and StopBatchingRequest::onResponse. */
    method OnStopResponse(error: bool, session: int)
      requires Valid()
      modifies mSessionBiDict
      ensures Valid()
      ensures Dictionary() == if !error && session in old(Dictionary()).bwd
        then WithoutSession(old(Dictionary()), session) else old(Dictionary())
    {
      if !error { RemoveSession(session); }
    }

    /** beforeBatchingStatusCb: completed trips leave the dictionary, and their ids are reported. */
    method OnBatchingStatus(tripCompleted: bool, trips: seq<int>) returns (completed: seq<int>)
      requires Valid()
      modifies mSessionBiDict
      ensures Valid()
      ensures completed == if tripCompleted then CompletedIds(old(Dictionary()), trips) else []
      ensures Dictionary() == Part(old(Dictionary()), old(Dictionary()).fwd.Keys - Ids(completed))
    {
      completed := [];
      ghost var d := mSessionBiDict.Value();
      PartOfAll(d);
      assert d.fwd.Keys - Ids([]) == d.fwd.Keys;
      if tripCompleted {
        for i := 0 to |trips|
          invariant Valid()
          invariant completed == CompletedIds(d, trips[..i])
          invariant Dictionary() == Part(d, d.fwd.Keys - Ids(completed))
        {
          TripStep(d, trips, i);
          var session := trips[i];
          if mSessionBiDict.HasSession(session) {
            var entity := mSessionBiDict.mExtMap[session];
            if entity.sessionMode.MODE_ON_TRIP_COMPLETED? {
              completed := completed + [entity.id];
              RemoveSession(session);
            }
          }
        }
        assert trips[..|trips|] == trips;
      }
    }

    /** locAPIAddGeofences; added are the sessions that LocationAPI returns, or None for NULL. */
    method AddGeofences(ids: seq<int>, added: Option<seq<int>>, masks: seq<int>) returns (retVal: LocationError)
      requires |masks| == |ids| && (added.Some? ==> |added.value| == |ids|)
      modifies mGeofenceBiDict
      ensures retVal == if mLocationAPI && added.Some? then SUCCESS else GENERAL_FAILURE
      ensures mGeofenceBiDict.Value() ==
        if retVal == SUCCESS then BindAll(old(mGeofenceBiDict.Value()), ids, added.value, masks)
        else old(mGeofenceBiDict.Value())
      ensures var d := old(mGeofenceBiDict.Value());
        Linked(d) && (added.Some? ==> FreshSessions(d, added.value)) ==> Linked(mGeofenceBiDict.Value())
    {
      retVal := GENERAL_FAILURE;
      if mLocationAPI && added.Some? {
        ghost var d := mGeofenceBiDict.Value();
        for i := 0 to |ids|
          invariant mGeofenceBiDict.Value() == BindAll(d, ids[..i], added.value[..i], masks[..i])
        {
          BindAllStep(d, ids, added.value, masks, i);
          mGeofenceBiDict.Set(ids[i], added.value[i], masks[i]);
        }
        if Linked(d) && FreshSessions(d, added.value) {
          AddKeepsLinked(d, ids, added.value, masks);
        }
        assert ids[..|ids|] == ids && added.value[..|ids|] == added.value && masks[..|ids|] == masks;
        retVal := SUCCESS;
      }
    }

    /** The body of the loop of locAPIRemoveGeofences: the session of an id, which leaves the dictionary, or 0. */
    method TransferGeofence(id: int, removed: BiDict<int>) returns (session: int)
      requires Linked(mGeofenceBiDict.Value()) && removed != mGeofenceBiDict
      modifies mGeofenceBiDict, removed
      ensures Transfer(mGeofenceBiDict.Value(), removed.Value(), if session > 0 then [session] else []) ==
        TransferOne(Transfer(old(mGeofenceBiDict.Value()), old(removed.Value()), []), id)
    {
      session := mGeofenceBiDict.GetSession(id);
      if session > 0 {
        var kind := mGeofenceBiDict.mExtMap[session];
        mGeofenceBiDict.RmBySession(session);
        removed.Set(id, session, kind);
        assert [] + [session] == [session];
      }
    }

    /**
    locAPIRemoveGeofences: the known ids move from the dictionary to the one returned, and their
    sessions are compacted to the front of the array, without gaps.
    */
    method RemoveGeofences(ids: seq<int>) returns (sessions: array<int>, j: nat, removed: BiDict<int>)
      requires Linked(mGeofenceBiDict.Value())
      modifies mGeofenceBiDict
      ensures Linked(mGeofenceBiDict.Value()) && fresh(removed) && fresh(sessions) && j <= sessions.Length
      ensures old(GeofencesOk(mGeofenceBiDict.Value())) ==> GeofencesOk(mGeofenceBiDict.Value())
      ensures var d := old(mGeofenceBiDict.Value());
        && mGeofenceBiDict.Value() == LeftOf(d, Ids(ids))
        && removed.Value() == GoneOf(d, Ids(ids))
        && sessions[..j] == KnownSessions(d.fwd, ids)
    {
      removed := new BiDict<int>();
      sessions := new int[|ids|];
      j := 0;
      ghost var start := Transfer(mGeofenceBiDict.Value(), removed.Value(), []);
      for i := 0 to |ids|
        invariant fresh(removed) && j <= i
        invariant Transfer(mGeofenceBiDict.Value(), removed.Value(), sessions[..j]) == TransferAll(start, ids[..i])
      {
        assert ids[..i + 1][..i] == ids[..i];
        ghost var known := sessions[..j];
        KnownGrow(mGeofenceBiDict.Value(), removed.Value(), known, ids[i]);
        var session := TransferGeofence(ids[i], removed);
        sessions[j] := session;
        assert sessions[..j] == known && sessions[..j + 1] == known + [session];
        if sessions[j] > 0 {
          j := j + 1;
        }
      }
      assert ids[..|ids|] == ids;
      TransferAllMoves(start.left, ids);
      LeftKeepsBijection(start.left, Ids(ids));
    }
  }

  ghost predicate IsTrip(d: Dict<SessionEntity>, session: int) {
    session in d.ext && d.ext[session].sessionMode.MODE_ON_TRIP_COMPLETED?
  }

  /** The id is bound to a trip that is among those completed. */
  ghost predicate IsCompleted(d: Dict<SessionEntity>, trips: seq<int>, id: int) {
    id in d.fwd && d.fwd[id] in trips && IsTrip(d, d.fwd[id])
  }

  lemma {:induction false} CompletedAre(d: Dict<SessionEntity>, trips: seq<int>)
    requires SessionsOk(d)
    ensures forall id :: id in CompletedIds(d, trips) <==> IsCompleted(d, trips, id)
  {
    if trips != [] {
      var n := |trips| - 1;
      CompletedAre(d, trips[..n]);
      assert trips == trips[..n] + [trips[n]];
      forall id ensures id in CompletedIds(d, trips) <==> IsCompleted(d, trips, id) {
        assert IsCompleted(d, trips, id) <==>
          IsCompleted(d, trips[..n], id) || (id in d.fwd && d.fwd[id] == trips[n] && IsTrip(d, trips[n]));
      }
    }
  }

  /** The trips that come first in the list come first among the ids. */
  lemma {:induction false} CompletedInOrder(d: Dict<SessionEntity>, trips: seq<int>, k: nat)
    requires SessionsOk(d) && k <= |trips|
    ensures CompletedIds(d, trips[..k]) <= CompletedIds(d, trips)
  {
    if k == |trips| {
      assert trips[..k] == trips;
    } else {
      CompletedInOrder(d, trips[..|trips| - 1], k);
      assert trips[..|trips| - 1][..k] == trips[..k];
    }
  }

  /** And each id is there once. */
  lemma {:induction false} CompletedOnce(d: Dict<SessionEntity>, trips: seq<int>, j: nat, k: nat)
    requires SessionsOk(d) && j < k < |CompletedIds(d, trips)|
    ensures CompletedIds(d, trips)[j] != CompletedIds(d, trips)[k]
  {
    var n := |trips| - 1;
    var before := CompletedIds(d, trips[..n]);
    if k < |before| {
      CompletedOnce(d, trips[..n], j, k);
    } else {
      CompletedAre(d, trips[..n]);
      assert before[j] in before;
      assert IsCompleted(d, trips[..n], before[j]);
    }
  }

  /** One round of beforeBatchingStatusCb. */
  lemma TripStep(d: Dict<SessionEntity>, trips: seq<int>, i: nat)
    requires SessionsOk(d) && i < |trips|
    ensures var done := CompletedIds(d, trips[..i]);
      var left := Part(d, d.fwd.Keys - Ids(done)); var s := trips[i];
      if s in left.bwd && left.ext[s].sessionMode.MODE_ON_TRIP_COMPLETED?
      then
        && left.ext[s].id == d.bwd[s]
        && CompletedIds(d, trips[..i + 1]) == done + [d.bwd[s]]
        && WithoutSession(left, s) == Part(d, d.fwd.Keys - Ids(done + [d.bwd[s]]))
      else CompletedIds(d, trips[..i + 1]) == done
  {
    var done := CompletedIds(d, trips[..i]);
    var s := trips[i];
    assert trips[..i + 1][..i] == trips[..i] && trips[..i + 1][i] == s;
    CompletedAre(d, trips[..i]);
    if s in d.bwd && d.bwd[s] !in done {
      TakeFromPart(d, d.fwd.Keys - Ids(done), s);
      IdsSnoc(d.fwd.Keys, done, d.bwd[s]);
    }
  }

  /** The calls on LocationAPI of an update: at most one session is stopped, and one started for it. */
  function Switch(fix: bool, mode: SessionMode, s: int, started: int): seq<ApiCall> {
    if fix && mode.MODE_ON_FIX? then [UpdateTracking(s)]
    else if fix then [ApiCall.StopTracking(s), StartBatching(started, mode)]
    else if mode.MODE_ON_FIX? then [StopBatching(s), ApiCall.StartTracking(started)]
    else [UpdateBatching(s, mode)]
  }

  /** The ids of the trips, in order, each at its first mention. */
  ghost function CompletedIds(d: Dict<SessionEntity>, trips: seq<int>): seq<int>
    requires SessionsOk(d)
  {
    if trips == [] then []
    else
      var n := |trips| - 1;
      CompletedIds(d, trips[..n]) +
      if trips[n] !in trips[..n] && IsTrip(d, trips[n])
      then [d.bwd[trips[n]]] else []
  }
}
