/**
GnssAdapter's tracking multiplexer: many client sessions share one engine. The code moves the
engine step by step; what it must always amount to is EngineMatches, the simple thing.
*/
module TrackingMultiplexer {

  /** LocationSessionKey. */
  datatype Key = Key(client: nat, id: nat)

  /** LocationOptions; a zero size means "not set". */
  datatype Options = Options(size: nat, minInterval: nat, mode: int)

  type Sessions = map<Key, Options>

  datatype Callbacks = Callbacks(tracking: bool, measurements: bool)

  datatype LocationError = SUCCESS | GENERAL_FAILURE | CALLBACK_MISSING | INVALID_PARAMETER

  datatype Response = NoResponse | Response(err: LocationError)

  /** What the engine does, and what it was asked, with the outcome it reported. */
  datatype Engine = Off | On(minInterval: nat)
  datatype EngineCall = StartFix(minInterval: nat, ok: bool) | StopFix(ok: bool)

  ghost predicate IsMin(m: Sessions, v: nat) {
    && (exists k :: k in m && m[k].minInterval == v)
    && (forall k :: k in m ==> v <= m[k].minInterval)
  }

  /** The engine is off exactly when there is no session, and else runs at the smallest interval. */
  ghost predicate EngineMatches(m: Sessions, e: Engine) {
    if m == map[] then e.Off? else e.On? && IsMin(m, e.minInterval)
  }

  ghost predicate AllSet(m: Sessions) { forall k :: k in m ==> m[k].size != 0 }

  /** Only one engine state matches. */
  lemma MatchIsUnique(m: Sessions, e: Engine, e': Engine)
    requires EngineMatches(m, e) && EngineMatches(m, e')
    ensures e == e'
  {
    if m != map[] {
      var k :| k in m && m[k].minInterval == e.minInterval;
      var k' :| k' in m && m[k'].minInterval == e'.minInterval;
    }
  }

  /** A session another one covers: one that is as frequent or more. */
  ghost predicate Covered(m: Sessions, key: Key) {
    key in m && exists k :: k in m && k != key && m[k].minInterval <= m[key].minInterval
  }

  /** The engine after a successful start command. */
  ghost function AfterStart(e: Engine, o: Options): Engine {
    if e.Off? || o.minInterval < e.minInterval then On(o.minInterval) else e
  }

  /**
  A start keeps the engine right exactly when its key is new, or it does not slow its session
  down, or another session covers the one it replaces.
  */
  lemma StartMatchesIff(m: Sessions, e: Engine, key: Key, o: Options)
    requires EngineMatches(m, e)
    ensures EngineMatches(m[key := o], AfterStart(e, o)) <==>
      (key !in m || o.minInterval <= m[key].minInterval || Covered(m, key))
  {
    var m' := m[key := o];
    assert key in m';
    if key !in m || o.minInterval <= m[key].minInterval || Covered(m, key) {
      StartMatches(m, e, key, o);
    } else {
      assert e.On?;
      assert forall k :: k in m && k != key ==> m[key].minInterval < m[k].minInterval;
      assert e.minInterval == m[key].minInterval;
      assert forall k :: k in m' ==> m'[k].minInterval > e.minInterval;
    }
  }

  lemma StartMatches(m: Sessions, e: Engine, key: Key, o: Options)
    requires EngineMatches(m, e)
    requires key !in m || o.minInterval <= m[key].minInterval || Covered(m, key)
    ensures EngineMatches(m[key := o], AfterStart(e, o))
  {
    var m', e' := m[key := o], AfterStart(e, o);
    assert key in m';
    if e'.minInterval != o.minInterval {
      var k :| k in m && m[k].minInterval == e.minInterval;
      if k == key {
        var j :| j in m && j != key && m[j].minInterval <= m[key].minInterval;
        assert j in m' && m'[j].minInterval == e'.minInterval;
      } else {
        assert k in m' && m'[k].minInterval == e'.minInterval;
      }
    } else {
      assert m'[key].minInterval == e'.minInterval;
    }
  }

  /** A session id used twice breaks it: the engine keeps an interval that nobody asks for. */
  lemma StartOverSlowerSession()
    ensures var (m, e, key, o) := (map[Key(1, 2) := Options(1, 10, 0)], On(10), Key(1, 2), Options(1, 20, 0));
      EngineMatches(m, e) && !EngineMatches(m[key := o], AfterStart(e, o))
  {
    var m := map[Key(1, 2) := Options(1, 10, 0)];
    assert Key(1, 2) in m;
    var m' := m[Key(1, 2) := Options(1, 20, 0)];
    assert forall k :: k in m' ==> m'[k].minInterval == 20;
  }

  /** What the update code relies on: the smaller of the new and the other intervals is the minimum. */
  lemma MinAfterUpdate(m: Sessions, key: Key, o: Options, v: nat)
    requires key in m && m - {key} != map[] && IsMin(m - {key}, v)
    ensures IsMin(m[key := o], if o.minInterval < v then o.minInterval else v)
    ensures IsMin(m, if m[key].minInterval < v then m[key].minInterval else v)
  {
    var others := m - {key};
    var k :| k in others && others[k].minInterval == v;
    assert k in m && k in m[key := o] && key in m[key := o];
    assert forall j :: j in m && j != key ==> j in others;
  }

  /** When a start, an update or a stop has something to ask of the engine. */
  ghost predicate StartAsks(m: Sessions, o: Options) { forall k :: k in m ==> o.minInterval < m[k].minInterval }

  ghost predicate UpdateAsks(m: Sessions, key: Key, o: Options)
    requires key in m
  {
    StartAsks(m - {key}, o) || StopAsks(m, key)
  }

  ghost predicate StopAsks(m: Sessions, key: Key)
    requires key in m
  {
    forall k :: k in m && k != key ==> m[key].minInterval < m[k].minInterval
  }

  lemma MinAfterAsking(m: Sessions, key: Key, o: Options)
    ensures key in m[key := o] && (StartAsks(m, o) ==> IsMin(m[key := o], o.minInterval))
  {
    assert m[key := o][key] == o;
  }

  lemma BelowMin(m: Sessions, v: nat, o: Options)
    requires IsMin(m, v)
    ensures StartAsks(m, o) <==> o.minInterval < v
  {
  }

  /** The sessions that are left when a client keeps no others than those of left. */
  ghost function Left(m: Sessions, client: nat, left: set<Key>): Sessions {
    map k | k in m && (k.client == client ==> k in left) :: m[k]
  }

  lemma LeftStep(m: Sessions, client: nat, todo: set<Key>, kept: set<Key>, key: Key)
    requires key in todo && key !in kept
    ensures key.client != client ==> Left(m, client, (todo - {key}) + kept) == Left(m, client, todo + kept)
    ensures key.client == client ==> Left(m, client, (todo - {key}) + kept) == Left(m, client, todo + kept) - {key}
    ensures Left(m, client, (todo - {key}) + (kept + {key})) == Left(m, client, todo + kept)
  {
    assert (todo - {key}) + (kept + {key}) == todo + kept;
  }

  // ---------------------------------------------------------------- sessions and engine as a value

  datatype Mux = Mux(sessions: Sessions, clients: map<nat, Callbacks>, engine: Engine, calls: seq<EngineCall>)

  ghost predicate Matched(s: Mux) { EngineMatches(s.sessions, s.engine) }

  predicate HasCallback(clients: map<nat, Callbacks>, client: nat) {
    client in clients && (clients[client].tracking || clients[client].measurements)
  }

  /** The engine is called; if it refuses it keeps doing what it did. */
  function Called(s: Mux, call: EngineCall): Mux {
    s.(calls := s.calls + [call],
       engine := if !call.ok then s.engine else if call.StopFix? then Off else On(call.minInterval))
  }

  ghost function Lowest(m: Sessions): (v: nat)
    requires m != map[]
    ensures IsMin(m, v)
    decreases |m|
  {
    var k :| k in m;
    if m - {k} == map[] then
      OnlyOne(m, k);
      m[k].minInterval
    else
      FewerSessions(m, k);
      var v := Lowest(m - {k});
      MinAfterUpdate(m, k, m[k], v);
      if m[k].minInterval < v then m[k].minInterval else v
  }

  lemma OnlyOne(m: Sessions, key: Key)
    requires key in m && m - {key} == map[]
    ensures IsMin(m, m[key].minInterval)
  {
    assert forall k :: k in m && k != key ==> k in m - {key};
  }

  lemma FewerSessions(m: Sessions, key: Key)
    requires key in m
    ensures |m - {key}| < |m|
  {
    assert (m - {key}).Keys == m.Keys - {key};
  }

  lemma LowestIsMin(m: Sessions, v: nat)
    requires IsMin(m, v)
    ensures m != map[] && Lowest(m) == v
  {
  }

  /** The engine is asked for what the sessions m need. */
  ghost function Asked(s: Mux, m: Sessions, ok: bool): Mux {
    Called(s, if m == map[] then StopFix(ok) else StartFix(Lowest(m), ok))
  }

  /** The steps of the messages; ok is what the engine answers if it is asked. */
  ghost function StartStep(s: Mux, key: Key, o: Options, ok: bool): Mux {
    if !HasCallback(s.clients, key.client) || o.size == 0 then s
    else
      var m := s.sessions[key := o];
      if !StartAsks(s.sessions, o) then s.(sessions := m)
      else if ok then Called(s, StartFix(o.minInterval, ok)).(sessions := m)
      else Called(s, StartFix(o.minInterval, ok))
  }

  ghost function UpdateStep(s: Mux, key: Key, o: Options, ok: bool): Mux {
    if key !in s.sessions || o.size == 0 then s
    else
      var m := s.sessions[key := o];
      if !UpdateAsks(s.sessions, key, o) then s.(sessions := m)
      else if ok then Asked(s, m, ok).(sessions := m)
      else Asked(s, m, ok)
  }

  ghost function StopStep(s: Mux, key: Key, ok: bool): Mux {
    if key !in s.sessions then s
    else
      var m := s.sessions - {key};
      if !StopAsks(s.sessions, key) then s.(sessions := m)
      else if ok then Asked(s, m, ok).(sessions := m)
      else Asked(s, m, ok)
  }

  /** A stop of the loop of stopClientSessions, with the engine's answer. */
  datatype StopCall = StopCall(key: Key, ok: bool)

  ghost function StopAll(s: Mux, stops: seq<StopCall>): Mux {
    if stops == [] then s
    else
      var n := |stops| - 1;
      StopStep(StopAll(s, stops[..n]), stops[n].key, stops[n].ok)
  }

  ghost predicate EachOnce(stops: seq<StopCall>, keys: set<Key>) {
    && (forall i, j :: 0 <= i < j < |stops| ==> stops[i].key != stops[j].key)
    && (set c | c in stops :: c.key) == keys
  }

  ghost function KeptBy(stops: seq<StopCall>): set<Key> { set c | c in stops && !c.ok :: c.key }

  lemma StopsStep(stops: seq<StopCall>, keys: set<Key>, c: StopCall)
    requires EachOnce(stops, keys) && c.key !in keys
    ensures EachOnce(stops + [c], keys + {c.key})
    ensures KeptBy(stops + [c]) == KeptBy(stops) + (if c.ok then {} else {c.key}) && c.key !in KeptBy(stops)
  {
    assert forall i :: 0 <= i < |stops| ==> stops[i] in stops && stops[i].key in keys;
  }

  lemma StopAllStep(s: Mux, stops: seq<StopCall>, c: StopCall)
    ensures StopAll(s, stops + [c]) == StopStep(StopAll(s, stops), c.key, c.ok)
  {
    assert (stops + [c])[..|stops|] == stops;
  }

  ghost function OfClient(m: Sessions, client: nat): set<Key> { set k | k in m && k.client == client }

  /** The loop of stopClientSessions between s0 and s: the sessions of todo are still to be looked at. */
  ghost predicate Stopping(s0: Mux, client: nat, todo: set<Key>, kept: set<Key>, stops: seq<StopCall>, s: Mux) {
    && EachOnce(stops, OfClient(s0.sessions, client) - todo)
    && s == StopAll(s0, stops)
    && kept == KeptBy(stops) && Failed(s.calls) == Failed(s0.calls) + |kept|
    && s.sessions == Left(s0.sessions, client, todo + kept)
  }

  lemma KeptAreDone(stops: seq<StopCall>, keys: set<Key>)
    requires EachOnce(stops, keys)
    ensures KeptBy(stops) <= keys
  {
  }

  lemma NothingStopped(s0: Mux, client: nat)
    ensures Stopping(s0, client, s0.sessions.Keys, {}, [], s0)
  {
    assert OfClient(s0.sessions, client) - s0.sessions.Keys == {};
    assert Left(s0.sessions, client, s0.sessions.Keys + {}) == s0.sessions;
  }

  lemma KeptNotToDo(m: Sessions, client: nat, todo: set<Key>, stops: seq<StopCall>, key: Key)
    requires EachOnce(stops, OfClient(m, client) - todo) && key in todo
    ensures key !in KeptBy(stops)
  {
    KeptAreDone(stops, OfClient(m, client) - todo);
  }

  lemma StoppingSkips(s0: Mux, client: nat, todo: set<Key>, kept: set<Key>, stops: seq<StopCall>, s: Mux, key: Key)
    requires Stopping(s0, client, todo, kept, stops, s) && key in todo && key.client != client
    ensures Stopping(s0, client, todo - {key}, kept, stops, s)
  {
    KeptNotToDo(s0.sessions, client, todo, stops, key);
    LeftStep(s0.sessions, client, todo, kept, key);
    assert OfClient(s0.sessions, client) - (todo - {key}) == OfClient(s0.sessions, client) - todo;
  }

  lemma OneMoreStop(m: Sessions, client: nat, todo: set<Key>, stops: seq<StopCall>, c: StopCall)
    requires EachOnce(stops, OfClient(m, client) - todo) && c.key in todo && c.key in OfClient(m, client)
    ensures EachOnce(stops + [c], OfClient(m, client) - (todo - {c.key}))
    ensures KeptBy(stops + [c]) == KeptBy(stops) + (if c.ok then {} else {c.key})
  {
    var done := OfClient(m, client) - todo;
    StopsStep(stops, done, c);
    assert OfClient(m, client) - (todo - {c.key}) == done + {c.key};
  }

  lemma StoppingStops(s0: Mux, client: nat, todo: set<Key>, kept: set<Key>, stops: seq<StopCall>, s: Mux,
                      key: Key, ok: bool, s': Mux)
    requires Stopping(s0, client, todo, kept, stops, s) && key in todo && key in OfClient(s0.sessions, client)
    requires s' == StopStep(s, key, ok) && Failed(s'.calls) == Failed(s.calls) + if ok then 0 else 1
    requires s'.sessions == if ok then s.sessions - {key} else s.sessions
    ensures Stopping(s0, client, todo - {key}, if ok then kept else kept + {key}, stops + [StopCall(key, ok)], s')
  {
    KeptNotToDo(s0.sessions, client, todo, stops, key);
    OneMoreStop(s0.sessions, client, todo, stops, StopCall(key, ok));
    LeftStep(s0.sessions, client, todo, kept, key);
    StopAllStep(s0, stops, StopCall(key, ok));
    if ok {
      assert kept + {} == kept;
    } else {
      OneMore(kept, key);
    }
  }

  lemma StoppingEnds(s0: Mux, client: nat, kept: set<Key>, stops: seq<StopCall>, s: Mux)
    requires Stopping(s0, client, {}, kept, stops, s)
    ensures EachOnce(stops, OfClient(s0.sessions, client)) && s.sessions == Left(s0.sessions, client, kept)
    ensures kept <= OfClient(s0.sessions, client)
  {
    KeptAreDone(stops, OfClient(s0.sessions, client) - {});
    assert OfClient(s0.sessions, client) - {} == OfClient(s0.sessions, client) && {} + kept == kept;
  }

  lemma OneMore(s: set<Key>, key: Key)
    requires key !in s
    ensures |s + {key}| == |s| + 1
  {
  }

  ghost function RestartStep(s: Mux, ok: bool): Mux {
    if s.sessions == map[] then s else Asked(s, s.sessions, ok)
  }

  /**
  A start asks exactly if it lowers the minimum; an update or a stop, exactly if the session is the
  only one, or if the minimum is another with it than without it.
  */
  lemma AsksIff(m: Sessions, key: Key, o: Options)
    ensures StartAsks(m, o) <==> m == map[] || o.minInterval < Lowest(m)
    ensures key in m ==>
      var others := m - {key};
      && (StopAsks(m, key) <==> others == map[] || Lowest(m) != Lowest(others))
      && (UpdateAsks(m, key, o) <==>
            others == map[] || Lowest(m) != Lowest(others) || Lowest(m[key := o]) != Lowest(others))
  {
    if m != map[] { BelowMin(m, Lowest(m), o); }
    if key in m {
      var others := m - {key};
      StopAsksIfBelow(m, key);
      if others != map[] {
        var v := Lowest(others);
        BelowMin(others, v, o);
        BelowMin(others, v, m[key]);
        MinAfterUpdate(m, key, o, v);
        LowestIsMin(m[key := o], if o.minInterval < v then o.minInterval else v);
        LowestIsMin(m, if m[key].minInterval < v then m[key].minInterval else v);
      }
    }
  }

  /** How many of the calls the engine refused. */
  ghost function Failed(calls: seq<EngineCall>): nat {
    if calls == [] then 0 else Failed(calls[..|calls| - 1]) + if calls[|calls| - 1].ok then 0 else 1
  }

  lemma FailedStep(calls: seq<EngineCall>, c: EngineCall)
    ensures Failed(calls + [c]) == Failed(calls) + if c.ok then 0 else 1
  {
    assert (calls + [c])[..|calls|] == calls;
  }

  lemma StopAsksIfBelow(m: Sessions, key: Key)
    requires key in m
    ensures StopAsks(m, key) <==> StartAsks(m - {key}, m[key])
    ensures !StopAsks(m, key) ==> m - {key} != map[]
  {
    assert forall k :: k in m && k != key <==> k in m - {key};
  }

  lemma OnlySession(m: Sessions, key: Key)
    requires key in m && |m| == 1
    ensures m - {key} == map[] && forall k :: k in m ==> k == key
  {
    forall k | k in m ensures k == key {
      if k != key {
        assert {k, key} <= m.Keys;
        assert |{k, key}| <= |m.Keys| by { SubsetSize({k, key}, m.Keys); }
      }
    }
  }

  lemma OtherSession(m: Sessions, key: Key)
    requires key in m && |m| != 1
    ensures m - {key} != map[]
  {
    assert (m - {key}).Keys == m.Keys - {key};
    assert |m.Keys - {key}| == |m.Keys| - 1;
  }

  lemma {:induction false} SubsetSize<T>(a: set<T>, b: set<T>)
    requires a <= b
    ensures |a| <= |b|
  {
    if x :| x in a {
      SubsetSize(a - {x}, b - {x});
    }
  }
}
