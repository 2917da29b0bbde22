/**
The GnssAdapter object: its session map, the engine behind it, and the procs of its messages.
*/
module Gnss {
  import opened TrackingMultiplexer

  class GnssAdapter {
    var mTrackingSessions: Sessions
    var mClientData: map<nat, Callbacks>
    var engine: Engine
    var calls: seq<EngineCall>

    ghost predicate Valid()
      reads this
    {
      AllSet(mTrackingSessions)
    }

    ghost predicate Matched()
      reads this
    {
      EngineMatches(mTrackingSessions, engine)
    }

    ghost function Value(): Mux
      reads this
    {
      Mux(mTrackingSessions, mClientData, engine, calls)
    }

    constructor ()
      ensures Valid() && Matched() && mTrackingSessions == map[] && mClientData == map[] && calls == []
    {
      mTrackingSessions, mClientData, engine, calls := map[], map[], Off, [];
    }

    /** The engine behind LocApiBase::startFix: it may refuse, and then keeps doing what it did. */
    method StartFix(minInterval: nat) returns (ok: bool)
      modifies `engine, `calls
      ensures calls == old(calls) + [EngineCall.StartFix(minInterval, ok)]
      ensures engine == if ok then On(minInterval) else old(engine)
    {
      ok := *;
      calls := calls + [EngineCall.StartFix(minInterval, ok)];
      if ok { engine := On(minInterval); }
    }

    method StopFix() returns (ok: bool)
      modifies `engine, `calls
      ensures calls == old(calls) + [EngineCall.StopFix(ok)]
      ensures engine == if ok then Off else old(engine)
    {
      ok := *;
      calls := calls + [EngineCall.StopFix(ok)];
      if ok { engine := Off; }
    }

    method StartTracking(options: Options) returns (err: LocationError)
      modifies `engine, `calls
      ensures calls == old(calls) + [EngineCall.StartFix(options.minInterval, err.SUCCESS?)]
      ensures engine == (if err.SUCCESS? then On(options.minInterval) else old(engine))
      ensures err.SUCCESS? || err.GENERAL_FAILURE?
    {
      var ok := StartFix(options.minInterval);
      err := if ok then SUCCESS else GENERAL_FAILURE;
    }

    method StopTracking() returns (err: LocationError)
      modifies `engine, `calls
      ensures calls == old(calls) + [EngineCall.StopFix(err.SUCCESS?)]
      ensures engine == (if err.SUCCESS? then Off else old(engine))
      ensures err.SUCCESS? || err.GENERAL_FAILURE?
    {
      var ok := StopFix();
      err := if ok then SUCCESS else GENERAL_FAILURE;
    }

    /** The loop over the session map: the options with the smallest interval, some keys left out. */
    method SmallestOptions(except: set<Key>) returns (smallest: Options)
      requires Valid()
      ensures mTrackingSessions - except == map[] ==> smallest.size == 0
      ensures mTrackingSessions - except != map[] ==>
        && smallest in (mTrackingSessions - except).Values
        && IsMin(mTrackingSessions - except, smallest.minInterval)
    {
      smallest := Options(0, 0, 0);
      var todo := mTrackingSessions.Keys;
      ghost var seen: Sessions := map[];
      while todo != {}
        invariant todo <= mTrackingSessions.Keys
        invariant seen == mTrackingSessions - (except + todo)
        invariant if seen == map[] then smallest.size == 0
                  else smallest.size != 0 && smallest in seen.Values && IsMin(seen, smallest.minInterval)
      {
        var key :| key in todo;
        var options := mTrackingSessions[key];
        todo := todo - {key};
        if key !in except {
          ghost var before := seen;
          seen := seen[key := options];
          assert key in seen && seen[key] == options;
          if smallest.size == 0 || options.minInterval < smallest.minInterval {
            smallest := options;
          } else {
            ghost var k :| k in before && before[k] == smallest;
            assert k in seen && seen[k] == smallest;
          }
        }
      }
      assert mTrackingSessions - (except + todo) == mTrackingSessions - except;
    }

    /** A restart is asked for exactly when the new interval is below all saved ones. */
    method StartTrackingMultiplex(options: Options) returns (err: LocationError)
      requires Valid()
      modifies `engine, `calls
      ensures if StartAsks(mTrackingSessions, options)
        then
          && calls == old(calls) + [EngineCall.StartFix(options.minInterval, err.SUCCESS?)]
          && engine == (if err.SUCCESS? then On(options.minInterval) else old(engine))
        else err.SUCCESS? && calls == old(calls) && engine == old(engine)
      ensures err.SUCCESS? || err.GENERAL_FAILURE?
    {
      err := SUCCESS;
      if mTrackingSessions == map[] {
        err := StartTracking(options);
      } else {
        var smallest := SmallestOptions({});
        assert mTrackingSessions - {} == mTrackingSessions;
        if options.minInterval < smallest.minInterval {
          err := StartTracking(options);
        }
      }
    }

    /** One engine call, if asked; it asks for the minimum of m, and its outcome is the result. */
    twostate predicate AskedFor(m: Sessions, asked: bool, err: LocationError)
      reads this
    {
      && (err.SUCCESS? || err.GENERAL_FAILURE?)
      && if !asked then err.SUCCESS? && calls == old(calls) && engine == old(engine)
         else
           && |calls| == |old(calls)| + 1 && old(calls) <= calls
           && var c := calls[|old(calls)|];
           && c.ok == err.SUCCESS?
           && (if m == map[] then c.StopFix? else c.StartFix? && IsMin(m, c.minInterval))
           && engine == (if !c.ok then old(engine) else if m == map[] then Off else On(c.minInterval))
           && Value() == Asked(old(Value()), m, c.ok)
    }

    /** The engine matches after a call that succeeds, whatever it did before. */
    method UpdateTrackingMultiplex(key: Key, options: Options) returns (err: LocationError)
      requires Valid() && key in mTrackingSessions
      modifies `engine, `calls
      ensures AskedFor(mTrackingSessions[key := options], UpdateAsks(mTrackingSessions, key, options), err)
      ensures err.SUCCESS? && (old(Matched()) || UpdateAsks(mTrackingSessions, key, options)) ==>
        EngineMatches(mTrackingSessions[key := options], engine)
    {
      err := SUCCESS;
      ghost var m := mTrackingSessions;
      if |mTrackingSessions| == 1 {
        OnlySession(m, key);
        assert key in m[key := options];
        LowestIsMin(m[key := options], options.minInterval);
        err := StartTracking(options);
      } else {
        OtherSession(m, key);
        var smallest := SmallestOptions({key});
        MinAfterUpdate(m, key, options, smallest.minInterval);
        BelowMin(m - {key}, smallest.minInterval, options);
        BelowMin(m - {key}, smallest.minInterval, m[key]);
        StopAsksIfBelow(m, key);
        if options.minInterval < smallest.minInterval {
          LowestIsMin(m[key := options], options.minInterval);
          err := StartTracking(options);
        } else if mTrackingSessions[key].minInterval < smallest.minInterval {
          LowestIsMin(m[key := options], smallest.minInterval);
          err := StartTracking(smallest);
        }
      }
    }

    method StopTrackingMultiplex(key: Key) returns (err: LocationError)
      requires Valid() && key in mTrackingSessions
      modifies `engine, `calls
      ensures AskedFor(mTrackingSessions - {key}, StopAsks(mTrackingSessions, key), err)
      ensures err.SUCCESS? && (old(Matched()) || StopAsks(mTrackingSessions, key)) ==>
        EngineMatches(mTrackingSessions - {key}, engine)
    {
      err := SUCCESS;
      ghost var m := mTrackingSessions;
      if |mTrackingSessions| == 1 {
        OnlySession(m, key);
        err := StopTracking();
      } else {
        OtherSession(m, key);
        var smallest := SmallestOptions({key});
        MinAfterUpdate(m, key, m[key], smallest.minInterval);
        BelowMin(m - {key}, smallest.minInterval, m[key]);
        StopAsksIfBelow(m, key);
        if mTrackingSessions[key].minInterval < smallest.minInterval {
          LowestIsMin(m - {key}, smallest.minInterval);
          err := StartTracking(smallest);
        }
      }
    }

    // -------------------------------------------------------------- message procs

    method SaveClient(client: nat, callbacks: Callbacks)
      modifies `mClientData
      ensures mClientData == old(mClientData)[client := callbacks]
    {
      mClientData := mClientData[client := callbacks];
    }

    /** MsgStartTracking: on failure nothing changes but the log of engine calls. */
    method StartTrackingCommand(key: Key, options: Options) returns (r: Response)
      requires Valid()
      modifies `mTrackingSessions, `engine, `calls
      ensures Valid() && Value() == StartStep(old(Value()), key, options, r == Response(SUCCESS))
      ensures r == Response(CALLBACK_MISSING) <==>
        key.client in mClientData ==> !mClientData[key.client].tracking && !mClientData[key.client].measurements
      ensures r == Response(INVALID_PARAMETER) <==> HasCallback(mClientData, key.client) && options.size == 0
      ensures r == Response(SUCCESS) || r == Response(GENERAL_FAILURE) || calls == old(calls)
      ensures mTrackingSessions ==
        if r == Response(SUCCESS) then old(mTrackingSessions)[key := options] else old(mTrackingSessions)
      ensures r != Response(SUCCESS) ==> engine == old(engine)
      ensures r == Response(SUCCESS) && old(Matched()) ==>
        && engine == AfterStart(old(engine), options)
        && (Matched() <==> (key !in old(mTrackingSessions) || Covered(old(mTrackingSessions), key)
                            || options.minInterval <= old(mTrackingSessions)[key].minInterval))
      ensures r == Response(SUCCESS) && old(engine).Off? ==> (Matched() <==> StartAsks(old(mTrackingSessions), options))
    {
      var err := SUCCESS;
      if !HasCallback(mClientData, key.client) {
        err := CALLBACK_MISSING;
      } else if options.size == 0 {
        err := INVALID_PARAMETER;
      } else {
        if Matched() {
          StartMatchesIff(mTrackingSessions, engine, key, options);
        }
        MinAfterAsking(mTrackingSessions, key, options);
        err := StartTrackingMultiplex(options);
        if err == SUCCESS {
          mTrackingSessions := mTrackingSessions[key := options];
        }
      }
      r := Response(err);
    }

    /** MsgUpdateTracking. */
    method UpdateTrackingCommand(key: Key, options: Options) returns (r: Response)
      requires Valid()
      modifies `mTrackingSessions, `engine, `calls
      ensures Valid() && (old(Matched()) ==> Matched())
      ensures Value() == UpdateStep(old(Value()), key, options, r == Response(SUCCESS))
      ensures r == NoResponse <==> key !in old(mTrackingSessions)
      ensures r == Response(SUCCESS) && UpdateAsks(old(mTrackingSessions), key, options) ==> Matched()
      ensures r == Response(SUCCESS) && old(engine).Off? ==>
        (Matched() <==> UpdateAsks(old(mTrackingSessions), key, options))
      ensures r == Response(INVALID_PARAMETER) <==> key in old(mTrackingSessions) && options.size == 0
      ensures mTrackingSessions ==
        if r == Response(SUCCESS) then old(mTrackingSessions)[key := options] else old(mTrackingSessions)
      ensures r != Response(SUCCESS) ==> engine == old(engine)
    {
      r := NoResponse;
      if key in mTrackingSessions {
        var err := SUCCESS;
        if options.size == 0 {
          err := INVALID_PARAMETER;
        } else {
          err := UpdateTrackingMultiplex(key, options);
          if err == SUCCESS {
            mTrackingSessions := mTrackingSessions[key := options];
          }
        }
        r := Response(err);
      }
    }

    /** MsgStopTracking. */
    method StopTrackingCommand(key: Key) returns (r: Response)
      requires Valid()
      modifies `mTrackingSessions, `engine, `calls
      ensures Valid() && (old(Matched()) ==> Matched())
      ensures Value() == StopStep(old(Value()), key, r == Response(SUCCESS))
      ensures r == NoResponse <==> key !in old(mTrackingSessions)
      ensures r == Response(SUCCESS) && StopAsks(old(mTrackingSessions), key) ==> Matched()
      ensures r == Response(SUCCESS) && old(engine).Off? ==> (Matched() <==> StopAsks(old(mTrackingSessions), key))
      ensures mTrackingSessions ==
        if r == Response(SUCCESS) then old(mTrackingSessions) - {key} else old(mTrackingSessions)
      ensures r != Response(SUCCESS) ==> engine == old(engine)
    {
      r := NoResponse;
      if key in mTrackingSessions {
        StopAsksIfBelow(mTrackingSessions, key);
        var err := StopTrackingMultiplex(key);
        if err == SUCCESS {
          mTrackingSessions := mTrackingSessions - {key};
        }
        r := Response(err);
      }
    }

    /** The body of the loop of stopClientSessions; it tells whether the session was erased. */
    method StopOne(key: Key) returns (stopped: bool)
      requires Valid() && key in mTrackingSessions
      modifies `mTrackingSessions, `engine, `calls
      ensures Valid() && (old(Matched()) ==> Matched()) && Value() == StopStep(old(Value()), key, stopped)
      ensures mTrackingSessions == if stopped then old(mTrackingSessions) - {key} else old(mTrackingSessions)
      ensures Failed(calls) == Failed(old(calls)) + if stopped then 0 else 1
    {
      StopAsksIfBelow(mTrackingSessions, key);
      forall c: EngineCall { FailedStep(calls, c); }
      var err := StopTrackingMultiplex(key);
      stopped := err == SUCCESS;
      if stopped {
        mTrackingSessions := mTrackingSessions - {key};
      }
    }

    /** Stops every session of the client; a session is kept exactly if its engine call fails. */
    method StopClientSessions(client: nat) returns (kept: set<Key>, ghost stops: seq<StopCall>)
      requires Valid()
      modifies `mTrackingSessions, `engine, `calls
      ensures Valid() && (old(Matched()) ==> Matched())
      ensures EachOnce(stops, OfClient(old(mTrackingSessions), client))
      ensures Value() == StopAll(old(Value()), stops)
      ensures kept == KeptBy(stops) && kept <= OfClient(old(mTrackingSessions), client)
      ensures Failed(calls) == Failed(old(calls)) + |kept|
      ensures mTrackingSessions == Left(old(mTrackingSessions), client, kept)
    {
      kept, stops := {}, [];
      var todo := mTrackingSessions.Keys;
      ghost var s0 := Value();
      NothingStopped(s0, client);
      while todo != {}
        invariant Valid() && (old(Matched()) ==> Matched()) && todo <= s0.sessions.Keys
        invariant Stopping(s0, client, todo, kept, stops, Value())
      {
        var key :| key in todo;
        if key.client == client {
          ghost var s := Value();
          assert key in OfClient(s0.sessions, client);
          var ok := StopOne(key);
          StoppingStops(s0, client, todo, kept, stops, s, key, ok, Value());
          if !ok { kept := kept + {key}; }
          stops := stops + [StopCall(key, ok)];
        } else {
          StoppingSkips(s0, client, todo, kept, stops, Value(), key);
        }
        todo := todo - {key};
      }
      StoppingEnds(s0, client, kept, stops, Value());
    }

    /** MsgRemoveClient; sessions whose engine call fails outlive their client. */
    method RemoveClientCommand(client: nat) returns (kept: set<Key>, ghost stops: seq<StopCall>)
      requires Valid()
      modifies this
      ensures Valid() && (old(Matched()) ==> Matched())
      ensures EachOnce(stops, OfClient(old(mTrackingSessions), client))
      ensures Value() == StopAll(old(Value()), stops).(clients := old(mClientData) - {client})
      ensures kept == KeptBy(stops) && kept <= OfClient(old(mTrackingSessions), client)
      ensures Failed(calls) == Failed(old(calls)) + |kept|
      ensures mTrackingSessions == Left(old(mTrackingSessions), client, kept)
    {
      kept, stops := StopClientSessions(client);
      mClientData := mClientData - {client};
    }

    /** The engine restarts, and does nothing until it is asked again. */
    method EngineRestarts()
      modifies `engine
      ensures Value() == old(Value()).(engine := Off)
      ensures Matched() <==> mTrackingSessions == map[]
    {
      engine := Off;
    }

    /** restartSessions, some commands after the engine came up: it asks for the minimum of the sessions of then. */
    method RestartSessions() returns (restarted: bool)
      requires Valid()
      modifies `engine, `calls
      ensures mTrackingSessions == map[] ==> restarted && calls == old(calls) && engine == old(engine)
      ensures mTrackingSessions != map[] ==>
        && |calls| == |old(calls)| + 1 && old(calls) <= calls
        && var c := calls[|old(calls)|];
        && c.StartFix? && c.ok == restarted && IsMin(mTrackingSessions, c.minInterval)
        && engine == if restarted then On(c.minInterval) else old(engine)
      ensures Value() == RestartStep(old(Value()), restarted)
      ensures Matched() <==> old(Matched()) || (mTrackingSessions != map[] && restarted)
    {
      restarted := true;
      if mTrackingSessions != map[] {
        var smallest := SmallestOptions({});
        assert mTrackingSessions - {} == mTrackingSessions;
        LowestIsMin(mTrackingSessions, smallest.minInterval);
        restarted := StartFix(smallest.minInterval);
      }
    }
  }
}
