/**
The multiplexer over runs of messages. A start message carries the session id that
generateSessionId gave it when the client asked, so ids may come in another order than messages.
*/
module MultiplexerRuns {
  import opened SessionIds
  import opened TrackingMultiplexer

  /** A message, or a restart of the engine, with what the engine answers if it is asked. */
  datatype Command =
    | SaveClient(client: nat, callbacks: Callbacks)
    | Start(client: nat, call: nat, options: Options, ok: bool)   // with the id of that call of generateSessionId
    | Update(key: Key, options: Options, ok: bool)
    | Stop(key: Key, ok: bool)
    | RemoveClient(client: nat, stops: seq<StopCall>)
    | EngineRestarts
    | RestartSessions(ok: bool)

  function IdOf(call: nat): (id: nat) {
    IdsRepeatOnlyAfterFullPeriod(call, call);
    IdAfter(call)
  }

  ghost function Step(s: Mux, c: Command): Mux {
    match c
    case SaveClient(client, callbacks) => s.(clients := s.clients[client := callbacks])
    case Start(client, call, o, ok) => StartStep(s, Key(client, IdOf(call)), o, ok)
    case Update(key, o, ok) => UpdateStep(s, key, o, ok)
    case Stop(key, ok) => StopStep(s, key, ok)
    case RemoveClient(client, stops) => StopAll(s, stops).(clients := s.clients - {client})
    case EngineRestarts => s.(engine := Off)
    case RestartSessions(ok) => RestartStep(s, ok)
  }

  const Initial := Mux(map[], map[], Off, [])

  ghost function Run(cs: seq<Command>): Mux {
    if cs == [] then Initial else Step(Run(cs[..|cs| - 1]), cs[|cs| - 1])
  }

  // ---------------------------------------------------------------- one message

  /** Among the calls of the engine since before there is one it accepted. */
  ghost predicate SomeAccepted(before: seq<EngineCall>, after: seq<EngineCall>) {
    exists i :: |before| <= i < |after| && after[i].ok
  }

  /** The engine does what the sessions need, or it has restarted and does nothing. */
  ghost predicate MuxOk(s: Mux) { Matched(s) || (s.engine.Off? && s.sessions != map[]) }

  /** What one message does to the match: only an accepted call restores it, and nothing loses it. */
  ghost predicate MatchedAfter(s: Mux, s': Mux) {
    && s.calls <= s'.calls && MuxOk(s')
    && (Matched(s') <==> Matched(s) || SomeAccepted(s.calls, s'.calls))
  }

  lemma CallAdded(s: Mux, s': Mux, c: EngineCall)
    requires s'.calls == s.calls + [c]
    ensures SomeAccepted(s.calls, s'.calls) <==> c.ok
  {
    assert s'.calls[|s.calls|] == c;
  }

  lemma StartMatchesAfter(s: Mux, key: Key, o: Options, ok: bool)
    requires MuxOk(s) && key !in s.sessions
    ensures MatchedAfter(s, StartStep(s, key, o, ok))
  {
    var s' := StartStep(s, key, o, ok);
    MinAfterAsking(s.sessions, key, o);
    if HasCallback(s.clients, key.client) && o.size != 0 {
      if StartAsks(s.sessions, o) {
        CallAdded(s, s', StartFix(o.minInterval, ok));
      } else if Matched(s) {
        StartMatches(s.sessions, s.engine, key, o);
      }
    }
  }

  /** The engine is asked for what m needs, and m is saved if it accepts. */
  lemma AskedMatchesAfter(s: Mux, m: Sessions, ok: bool)
    requires MuxOk(s)
    ensures MatchedAfter(s, if ok then Asked(s, m, ok).(sessions := m) else Asked(s, m, ok))
  {
    CallAdded(s, Asked(s, m, ok), if m == map[] then StopFix(ok) else StartFix(Lowest(m), ok));
  }

  lemma NotAsked(s: Mux, key: Key)
    requires key in s.sessions && !StopAsks(s.sessions, key)
    ensures s.sessions - {key} != map[]
    ensures Matched(s) ==> s.engine.On? && IsMin(s.sessions - {key}, s.engine.minInterval)
  {
    StopAsksIfBelow(s.sessions, key);
    var others := s.sessions - {key};
    MinAfterUpdate(s.sessions, key, s.sessions[key], Lowest(others));
    BelowMin(others, Lowest(others), s.sessions[key]);
    if Matched(s) {
      LowestIsMin(s.sessions, s.engine.minInterval);
      LowestIsMin(s.sessions, Lowest(others));
    }
  }

  lemma StopMatchesAfter(s: Mux, key: Key, ok: bool)
    requires MuxOk(s)
    ensures MatchedAfter(s, StopStep(s, key, ok))
  {
    if key in s.sessions {
      if StopAsks(s.sessions, key) {
        AskedMatchesAfter(s, s.sessions - {key}, ok);
      } else {
        NotAsked(s, key);
      }
    }
  }

  lemma UpdateMatchesAfter(s: Mux, key: Key, o: Options, ok: bool)
    requires MuxOk(s)
    ensures MatchedAfter(s, UpdateStep(s, key, o, ok))
  {
    if key in s.sessions && o.size != 0 {
      var m := s.sessions[key := o];
      assert key in m;
      if UpdateAsks(s.sessions, key, o) {
        AskedMatchesAfter(s, m, ok);
      } else {
        NotAsked(s, key);
        var v := Lowest(s.sessions - {key});
        MinAfterUpdate(s.sessions, key, o, v);
        BelowMin(s.sessions - {key}, v, o);
        if Matched(s) { LowestIsMin(s.sessions - {key}, s.engine.minInterval); }
      }
    }
  }

  lemma Transitive(s: Mux, s1: Mux, s2: Mux)
    requires MatchedAfter(s, s1) && MatchedAfter(s1, s2)
    ensures MatchedAfter(s, s2)
  {
    if SomeAccepted(s.calls, s1.calls) {
      var i :| |s.calls| <= i < |s1.calls| && s1.calls[i].ok;
      assert s2.calls[i].ok;
    }
    if SomeAccepted(s1.calls, s2.calls) {
      var i :| |s1.calls| <= i < |s2.calls| && s2.calls[i].ok;
      assert |s.calls| <= i;
    }
    if SomeAccepted(s.calls, s2.calls) && !SomeAccepted(s1.calls, s2.calls) {
      var i :| |s.calls| <= i < |s2.calls| && s2.calls[i].ok;
      assert s1.calls[i].ok;
    }
  }

  lemma {:induction false} StopAllMatchesAfter(s: Mux, stops: seq<StopCall>)
    requires MuxOk(s)
    ensures MatchedAfter(s, StopAll(s, stops))
  {
    if stops != [] {
      var n := |stops| - 1;
      StopAllMatchesAfter(s, stops[..n]);
      StopMatchesAfter(StopAll(s, stops[..n]), stops[n].key, stops[n].ok);
      Transitive(s, StopAll(s, stops[..n]), StopAll(s, stops));
    }
  }

  lemma StepMatchesAfter(s: Mux, c: Command)
    requires MuxOk(s) && !c.EngineRestarts? && (c.Start? ==> Key(c.client, IdOf(c.call)) !in s.sessions)
    ensures MatchedAfter(s, Step(s, c))
  {
    match c
    case SaveClient(_, _) =>
    case Start(client, call, o, ok) => StartMatchesAfter(s, Key(client, IdOf(call)), o, ok);
    case Update(key, o, ok) => UpdateMatchesAfter(s, key, o, ok);
    case Stop(key, ok) => StopMatchesAfter(s, key, ok);
    case RemoveClient(client, stops) => StopAllMatchesAfter(s, stops);
    case RestartSessions(ok) => if s.sessions != map[] { AskedMatchesAfter(s, s.sessions, ok); }
  }

  // ---------------------------------------------------------------- ids

  /** No two starts of the run have ids from calls of generateSessionId a period or more apart. */
  ghost predicate WithinPeriod(cs: seq<Command>) {
    forall i, j :: 0 <= i < |cs| && 0 <= j < |cs| && i != j && cs[i].Start? && cs[j].Start? ==>
      0 < cs[i].call - cs[j].call < PERIOD || 0 < cs[j].call - cs[i].call < PERIOD
  }

  ghost predicate StartedAs(cs: seq<Command>, key: Key) {
    exists i :: 0 <= i < |cs| && cs[i].Start? && key.id == IdOf(cs[i].call)
  }

  lemma {:induction false} StopAllSaves(s: Mux, stops: seq<StopCall>)
    ensures StopAll(s, stops).sessions.Keys <= s.sessions.Keys
  {
    if stops != [] { StopAllSaves(s, stops[..|stops| - 1]); }
  }

  lemma StepSaves(s: Mux, c: Command, key: Key)
    requires key in Step(s, c).sessions
    ensures key in s.sessions || (c.Start? && key == Key(c.client, IdOf(c.call)))
  {
    if c.RemoveClient? { StopAllSaves(s, c.stops); }
  }

  lemma {:induction false} SavedWereStarted(cs: seq<Command>, key: Key)
    requires key in Run(cs).sessions
    ensures StartedAs(cs, key)
  {
    if cs != [] {
      var n := |cs| - 1;
      StepSaves(Run(cs[..n]), cs[n], key);
      if key in Run(cs[..n]).sessions {
        SavedWereStarted(cs[..n], key);
        var i :| 0 <= i < n && cs[..n][i].Start? && key.id == IdOf(cs[..n][i].call);
        assert cs[i].Start?;
      }
    }
  }

  /** So a start never meets a saved session of its id. */
  lemma StartIsNew(cs: seq<Command>, c: Command)
    requires c.Start? && WithinPeriod(cs + [c])
    ensures Key(c.client, IdOf(c.call)) !in Run(cs).sessions
  {
    var key, all := Key(c.client, IdOf(c.call)), cs + [c];
    if key in Run(cs).sessions {
      SavedWereStarted(cs, key);
      var i :| 0 <= i < |cs| && cs[i].Start? && key.id == IdOf(cs[i].call);
      assert all[i] == cs[i] && all[|cs|] == c;
      if cs[i].call <= c.call {
        IdsRepeatOnlyAfterFullPeriod(cs[i].call, c.call);
      } else {
        IdsRepeatOnlyAfterFullPeriod(c.call, cs[i].call);
      }
      assert false;
    }
  }

  // ---------------------------------------------------------------- all runs

  /** The engine restarts while there are sessions. */
  ghost predicate LostAt(cs: seq<Command>, i: nat)
    requires i < |cs|
  {
    cs[i].EngineRestarts? && Run(cs[..i]).sessions != map[]
  }

  /** The engine accepts a call of this message. */
  ghost predicate AcceptedAt(cs: seq<Command>, i: nat)
    requires i < |cs|
  {
    SomeAccepted(Run(cs[..i]).calls, Run(cs[..i + 1]).calls)
  }

  /** After every restart with sessions, the engine has accepted some call. */
  ghost predicate AllAsked(cs: seq<Command>) {
    forall i :: 0 <= i < |cs| && LostAt(cs, i) ==> exists j :: i < j < |cs| && AcceptedAt(cs, j)
  }

  lemma PrefixCommands(cs: seq<Command>, c: Command, i: nat)
    requires i < |cs|
    ensures LostAt(cs + [c], i) == LostAt(cs, i) && AcceptedAt(cs + [c], i) == AcceptedAt(cs, i)
  {
    assert (cs + [c])[..i] == cs[..i] && (cs + [c])[..i + 1] == cs[..i + 1];
  }

  lemma LastCommand(cs: seq<Command>, c: Command)
    ensures var all, n := cs + [c], |cs|;
      && LostAt(all, n) == (c.EngineRestarts? && Run(cs).sessions != map[])
      && AcceptedAt(all, n) == SomeAccepted(Run(cs).calls, Step(Run(cs), c).calls)
  {
    var all := cs + [c];
    assert all[..|cs|] == cs && all[..|cs| + 1] == all;
  }

  lemma {:induction false} AllAskedStep(cs: seq<Command>, c: Command)
    ensures AllAsked(cs + [c]) <==>
      !LostAt(cs + [c], |cs|) && (AllAsked(cs) || AcceptedAt(cs + [c], |cs|))
  {
    var n, all := |cs|, cs + [c];
    forall i: nat | i < n { PrefixCommands(cs, c, i); }
    if AllAsked(all) && !AcceptedAt(all, n) {
      forall i | 0 <= i < n && LostAt(cs, i) ensures exists j :: i < j < n && AcceptedAt(cs, j) {
        assert LostAt(all, i);
        var j :| i < j < |all| && AcceptedAt(all, j);
        assert AcceptedAt(cs, j);
      }
    }
    if AllAsked(cs) && !LostAt(all, n) {
      forall i | 0 <= i < |all| && LostAt(all, i) ensures exists j :: i < j < |all| && AcceptedAt(all, j) {
        assert LostAt(cs, i);
        var j :| i < j < n && AcceptedAt(cs, j);
        assert AcceptedAt(all, j);
      }
    }
    if AcceptedAt(all, n) && !LostAt(all, n) {
      assert forall i :: 0 <= i < |all| && LostAt(all, i) ==> i < n;
    }
  }

  /**
  After any run whose ids are within a period, the engine matches the sessions exactly if it has
  accepted some call since its last restart with sessions, whichever message asked it.
  */
  lemma {:induction false} EngineMatchesIff(cs: seq<Command>)
    requires WithinPeriod(cs)
    ensures MuxOk(Run(cs)) && (Matched(Run(cs)) <==> AllAsked(cs))
  {
    if cs != [] {
      var cs0, c := cs[..|cs| - 1], cs[|cs| - 1];
      assert cs == cs0 + [c];
      EngineMatchesIff(cs0);
      AllAskedStep(cs0, c);
      LastCommand(cs0, c);
      if !c.EngineRestarts? {
        if c.Start? { StartIsNew(cs0, c); }
        StepMatchesAfter(Run(cs0), c);
      }
    }
  }

  /** Without a restart of the engine, it always matches. */
  lemma EngineAlwaysMatches(cs: seq<Command>)
    requires WithinPeriod(cs) && EngineRestarts !in cs
    ensures Matched(Run(cs))
  {
    EngineMatchesIff(cs);
    assert forall i :: 0 <= i < |cs| ==> !LostAt(cs, i);
  }
}
