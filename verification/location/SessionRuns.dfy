/**
Sessions and the responses to their calls. A response names only its session, and is handed to the
oldest request of the queue; so what it does depends on whether queue and calls are still in order.
*/
module SessionRuns {
  import opened BiDict
  import opened Sessions

  /** pending has the sessions of the calls on LocationAPI that are not answered yet, in order. */
  datatype Client = Client(dict: Dict<SessionEntity>, queue: seq<Request>, pending: seq<int>)

  datatype Event =
    | Start(id: int, mode: SessionMode, started: int)
    | Stop(id: int)
    | Update(id: int, mode: SessionMode, started: int)
    | GetBatched(id: int)
    | Respond(error: bool)              // LocationAPI answers its oldest call
    | TripsCompleted(trips: seq<int>)

  ghost predicate ChangesKind(s: Client, id: int, mode: SessionMode)
    requires SessionsOk(s.dict) && id in s.dict.fwd
  {
    s.dict.ext[s.dict.fwd[id]].sessionMode.MODE_ON_FIX? != mode.MODE_ON_FIX?
  }

  /** The client's calls queue one request, for the session bound after the call. */
  ghost function Requested(s: Client, dict: Dict<SessionEntity>, r: Request, calls: seq<int>): Client {
    Client(dict, s.queue + [r], s.pending + calls)
  }

  /** The sessions that calls on LocationAPI name, each of which will be answered. */
  function Named(calls: seq<ApiCall>): seq<int> {
    if calls == [] then [] else [calls[0].session] + Named(calls[1..])
  }

  ghost function UpdateStep(s: Client, id: int, mode: SessionMode, started: int): Client
    requires SessionsOk(s.dict) && id in s.dict.fwd
  {
    var session := s.dict.fwd[id];
    var e := Moved(s.dict.ext[session], mode, started);
    var calls := Switch(s.dict.ext[session].sessionMode.MODE_ON_FIX?, mode, session, started);
    Requested(s, Rebound(s.dict, id, e), Request(ForUpdate, Active(e)), Named(calls))
  }

  ghost function RespondStep(s: Client, error: bool): Client {
    if s.pending == [] then s
    else
      var (dict, queue) := Answered(s.dict, s.queue, s.pending[0], error);
      Client(dict, queue, s.pending[1..])
  }

  ghost function TripsStep(s: Client, trips: seq<int>): Client
    requires SessionsOk(s.dict)
  {
    s.(dict := Part(s.dict, s.dict.fwd.Keys - Ids(CompletedIds(s.dict, trips))))
  }

  ghost function Step(s: Client, e: Event): Client {
    if !SessionsOk(s.dict) then s
    else
    match e
    case Start(id, mode, started) =>
      if id in s.dict.fwd then s
      else Requested(s, Bind(s.dict, id, started, NewEntity(id, mode, started)), Request(ForStart, started), [started])
    case Stop(id) =>
      if id !in s.dict.fwd then s
      else Requested(s, s.dict, Request(ForStop, s.dict.fwd[id]), [s.dict.fwd[id]])
    case Update(id, mode, started) => if id !in s.dict.fwd then s else UpdateStep(s, id, mode, started)
    case GetBatched(id) =>
      if id !in s.dict.fwd || s.dict.ext[s.dict.fwd[id]].sessionMode.MODE_ON_FIX? then s
      else Requested(s, s.dict, Request(ForBatched, s.dict.fwd[id]), [s.dict.fwd[id]])
    case Respond(error) => RespondStep(s, error)
    case TripsCompleted(trips) => TripsStep(s, trips)
  }

  // ---------------------------------------------------------------- queue and calls

  /** The unanswered calls that will be taken for answers, since their session is known. */
  ghost function Known(pending: seq<int>, sessions: set<int>): seq<int> {
    if pending == [] then []
    else (if pending[0] in sessions then [pending[0]] else []) + Known(pending[1..], sessions)
  }

  ghost function SessionsOf(queue: seq<Request>): seq<int> {
    if queue == [] then [] else [queue[0].session] + SessionsOf(queue[1..])
  }

  /** Every answer that is still to come will be handed to the request it belongs to. */
  ghost predicate InOrder(s: Client) { SessionsOf(s.queue) == Known(s.pending, s.dict.bwd.Keys) }

  /** Once a request has been left behind, there are more requests than answers, for ever. */
  ghost predicate ClientOk(s: Client) {
    SessionsOk(s.dict) && (InOrder(s) || |s.queue| > |Known(s.pending, s.dict.bwd.Keys)|)
  }

  /** The event takes a session from the dictionary that has another call unanswered. */
  ghost predicate LeavesBehind(s: Client, e: Event)
    requires SessionsOk(s.dict)
  {
    match e
    case Update(id, mode, _) =>
      id in s.dict.fwd && ChangesKind(s, id, mode) && s.dict.fwd[id] in s.pending
    case Respond(error) =>
      && s.pending != [] && s.pending[0] in s.dict.bwd && s.pending[0] in s.pending[1..]
      && s.queue != [] && Removes(s.queue[0].kind, error)
    case TripsCompleted(trips) => exists t :: t in trips && IsTrip(s.dict, t) && t in s.pending
    case _ => false
  }

  /** LocationAPI gives each session it starts a number that has not been used. */
  ghost predicate Fresh(s: Client, e: Event)
    requires SessionsOk(s.dict)
  {
    (e.Start? || e.Update? ==> e.started != 0 && e.started !in s.dict.bwd && e.started !in s.pending)
  }

  lemma {:induction false} SessionsOfSnoc(queue: seq<Request>, r: Request)
    ensures SessionsOf(queue + [r]) == SessionsOf(queue) + [r.session]
  {
    if queue == [] {
      assert [] + [r] == [r] && [r][1..] == [];
    } else {
      assert (queue + [r])[1..] == queue[1..] + [r];
      SessionsOfSnoc(queue[1..], r);
      assert [queue[0].session] + (SessionsOf(queue[1..]) + [r.session]) == SessionsOf(queue) + [r.session];
    }
  }

  lemma {:induction false} SessionsOfLength(queue: seq<Request>)
    ensures |SessionsOf(queue)| == |queue|
  {
    if queue != [] { SessionsOfLength(queue[1..]); }
  }

  lemma {:induction false} KnownSnoc(pending: seq<int>, p: int, sessions: set<int>)
    ensures Known(pending + [p], sessions) == Known(pending, sessions) + if p in sessions then [p] else []
  {
    if pending == [] {
      assert [] + [p] == [p] && [p][1..] == [];
    } else {
      assert (pending + [p])[1..] == pending[1..] + [p];
      KnownSnoc(pending[1..], p, sessions);
      var first := if pending[0] in sessions then [pending[0]] else [];
      var last := if p in sessions then [p] else [];
      assert first + (Known(pending[1..], sessions) + last) == Known(pending, sessions) + last;
    }
  }

  lemma {:induction false} KnownOthers(pending: seq<int>, sessions: set<int>, sessions': set<int>)
    requires forall p :: p in pending ==> (p in sessions <==> p in sessions')
    ensures Known(pending, sessions) == Known(pending, sessions')
  {
    if pending != [] {
      var p := pending[0];
      assert p in pending;
      assert p in sessions <==> p in sessions';
      KnownOthers(pending[1..], sessions, sessions');
    }
  }

  ghost predicate Lost(p: int, sessions: set<int>, sessions': set<int>) { p in sessions && p !in sessions' }

  ghost predicate SomeLost(pending: seq<int>, sessions: set<int>, sessions': set<int>) {
    exists i :: 0 <= i < |pending| && Lost(pending[i], sessions, sessions')
  }

  lemma SomeLostStep(pending: seq<int>, sessions: set<int>, sessions': set<int>)
    requires pending != []
    ensures SomeLost(pending, sessions, sessions') <==>
      Lost(pending[0], sessions, sessions') || SomeLost(pending[1..], sessions, sessions')
  {
    if i :| 0 <= i < |pending| && Lost(pending[i], sessions, sessions') {
      assert i == 0 || pending[i] == pending[1..][i - 1];
    }
    if i :| 0 <= i < |pending| - 1 && Lost(pending[1..][i], sessions, sessions') {
      assert pending[i + 1] == pending[1..][i];
    }
  }

  /** Fewer sessions are fewer answers, strictly so if one of them had a call unanswered. */
  lemma {:induction false} KnownFewer(pending: seq<int>, sessions: set<int>, sessions': set<int>)
    requires sessions' <= sessions
    ensures |Known(pending, sessions')| <= |Known(pending, sessions)|
    ensures |Known(pending, sessions')| < |Known(pending, sessions)| <==> SomeLost(pending, sessions, sessions')
  {
    if pending != [] {
      KnownFewer(pending[1..], sessions, sessions');
      SomeLostStep(pending, sessions, sessions');
    }
  }

  // ---------------------------------------------------------------- one event

  lemma RequestedKeeps(s: Client, r: Request)
    requires ClientOk(s) && r.session in s.dict.bwd
    ensures var s' := Requested(s, s.dict, r, [r.session]); ClientOk(s') && (InOrder(s') <==> InOrder(s))
  {
    SessionsOfSnoc(s.queue, r);
    KnownSnoc(s.pending, r.session, s.dict.bwd.Keys);
    SessionsOfLength(s.queue);
    SameEnd(SessionsOf(s.queue), Known(s.pending, s.dict.bwd.Keys), r.session);
  }

  lemma SameEnd(a: seq<int>, b: seq<int>, x: int)
    ensures a + [x] == b + [x] <==> a == b
  {
    assert (a + [x])[..|a|] == a && (b + [x])[..|b|] == b;
    assert |a + [x]| == |a| + 1 && |b + [x]| == |b| + 1;
  }

  lemma StartKeeps(s: Client, id: int, mode: SessionMode, started: int)
    requires ClientOk(s) && id !in s.dict.fwd && Fresh(s, Start(id, mode, started))
    ensures var s' := Step(s, Start(id, mode, started)); ClientOk(s') && (InOrder(s') <==> InOrder(s))
  {
    var d' := Bind(s.dict, id, started, NewEntity(id, mode, started));
    BindKeepsBijectionIff(s.dict, id, started, NewEntity(id, mode, started));
    KnownOthers(s.pending, s.dict.bwd.Keys, d'.bwd.Keys);
    RequestedKeeps(Client(d', s.queue, s.pending), Request(ForStart, started));
  }

  /** When sessions leave the dictionary, order is kept exactly if none of them has a call unanswered. */
  lemma LeavingKeepsIff(s: Client, d': Dict<SessionEntity>)
    requires ClientOk(s) && SessionsOk(d') && d'.bwd.Keys <= s.dict.bwd.Keys
    ensures var s' := s.(dict := d');
      && ClientOk(s')
      && (InOrder(s') <==> InOrder(s) && forall p :: p in s.pending && p in s.dict.bwd ==> p in d'.bwd)
  {
    var ks, ks' := s.dict.bwd.Keys, d'.bwd.Keys;
    KnownFewer(s.pending, ks, ks');
    SessionsOfLength(s.queue);
    if SomeLost(s.pending, ks, ks') {
      var i :| 0 <= i < |s.pending| && Lost(s.pending[i], ks, ks');
      assert s.pending[i] in s.pending;
    } else {
      forall p | p in s.pending && p in ks ensures p in ks' {
        var i :| 0 <= i < |s.pending| && s.pending[i] == p;
        assert !Lost(s.pending[i], ks, ks');
      }
      KnownOthers(s.pending, ks, ks');
    }
  }

  lemma SwitchNames(fix: bool, mode: SessionMode, s: int, started: int)
    ensures Named(Switch(fix, mode, s, started)) == if fix <==> mode.MODE_ON_FIX? then [s] else [s, started]
  {
    var calls := Switch(fix, mode, s, started);
    if |calls| == 2 {
      assert Named(calls[1..]) == [calls[1].session] + Named(calls[1..][1..]);
    }
  }

  /** An update that changes the kind makes two calls, and queues one request. */
  lemma KindChanged(s: Client, id: int, mode: SessionMode, started: int)
    requires SessionsOk(s.dict) && id in s.dict.fwd && ChangesKind(s, id, mode)
    ensures var was := s.dict.fwd[id]; var d := Rebound(s.dict, id, Moved(s.dict.ext[was], mode, started));
      Step(s, Update(id, mode, started)) ==
        Client(d, s.queue + [Request(ForUpdate, started)], s.pending + [was, started])
  {
    var was := s.dict.fwd[id];
    SwitchNames(s.dict.ext[was].sessionMode.MODE_ON_FIX?, mode, was, started);
  }

  lemma UpdateKeepsIff(s: Client, id: int, mode: SessionMode, started: int)
    requires ClientOk(s) && id in s.dict.fwd && Fresh(s, Update(id, mode, started))
    ensures var e := Update(id, mode, started); var s' := Step(s, e);
      ClientOk(s') && (InOrder(s') <==> InOrder(s) && !LeavesBehind(s, e))
  {
    var session := s.dict.fwd[id];
    var e := Moved(s.dict.ext[session], mode, started);
    var d' := Rebound(s.dict, id, e);
    UpdateKeepsOk(s.dict, id, mode, started);
    SwitchNames(s.dict.ext[session].sessionMode.MODE_ON_FIX?, mode, session, started);
    if ChangesKind(s, id, mode) {
      var without := WithoutSession(s.dict, session);
      RemoveKeepsOk(s.dict, session);
      LeavingKeepsIff(s, without);
      KnownOthers(s.pending, without.bwd.Keys, d'.bwd.Keys);
      KnownSnoc(s.pending, session, d'.bwd.Keys);
      assert Known(s.pending, d'.bwd.Keys) + [] == Known(s.pending, d'.bwd.Keys);
      assert s.pending + [session, started] == s.pending + [session] + [started];
      RequestedKeeps(Client(d', s.queue, s.pending + [session]), Request(ForUpdate, started));
    } else {
      assert d'.bwd.Keys == s.dict.bwd.Keys;
      RequestedKeeps(Client(d', s.queue, s.pending), Request(ForUpdate, session));
    }
  }

  lemma RespondKeepsIff(s: Client, error: bool)
    requires ClientOk(s)
    ensures var s' := Step(s, Respond(error));
      ClientOk(s') && (InOrder(s') <==> InOrder(s) && !LeavesBehind(s, Respond(error)))
  {
    if s.pending != [] && s.pending[0] in s.dict.bwd {
      var p := s.pending[0];
      SessionsOfLength(s.queue);
      assert s.queue != [];
      var s1 := Client(s.dict, s.queue[1..], s.pending[1..]);
      PopKeeps(s);
      if Removes(s.queue[0].kind, error) {
        RemoveKeepsOk(s.dict, p);
        LeavingKeepsIff(s1, WithoutSession(s.dict, p));
      }
    } else if s.pending != [] {
      assert Known(s.pending, s.dict.bwd.Keys) == Known(s.pending[1..], s.dict.bwd.Keys);
    }
  }

  lemma PopKeeps(s: Client)
    requires ClientOk(s) && s.pending != [] && s.pending[0] in s.dict.bwd && s.queue != []
    ensures var s1 := Client(s.dict, s.queue[1..], s.pending[1..]);
      ClientOk(s1) && (InOrder(s1) <==> InOrder(s))
  {
    var p, known := s.pending[0], Known(s.pending[1..], s.dict.bwd.Keys);
    assert Known(s.pending, s.dict.bwd.Keys) == [p] + known;
    SessionsOfLength(s.queue[1..]);
    SessionsOfLength(s.queue);
    assert (SessionsOf(s.queue))[1..] == SessionsOf(s.queue[1..]) && ([p] + known)[1..] == known;
  }

  lemma TripsKeepIff(s: Client, trips: seq<int>)
    requires ClientOk(s)
    ensures var s' := Step(s, TripsCompleted(trips));
      ClientOk(s') && (InOrder(s') <==> InOrder(s) && !LeavesBehind(s, TripsCompleted(trips)))
  {
    var done := CompletedIds(s.dict, trips);
    var d' := Part(s.dict, s.dict.fwd.Keys - Ids(done));
    CompletedAre(s.dict, trips);
    LeavingKeepsIff(s, d');
    forall p | p in s.dict.bwd ensures p in d'.bwd <==> !(p in trips && IsTrip(s.dict, p)) {
      assert s.dict.bwd[p] in done <==> IsCompleted(s.dict, trips, s.dict.bwd[p]);
    }
  }

  /** One event keeps queue and calls in order exactly if it leaves no request behind. */
  lemma StepKeepsIff(s: Client, e: Event)
    requires ClientOk(s) && Fresh(s, e)
    ensures ClientOk(Step(s, e)) && (InOrder(Step(s, e)) <==> InOrder(s) && !LeavesBehind(s, e))
  {
    match e
    case Start(id, mode, started) => if id !in s.dict.fwd { StartKeeps(s, id, mode, started); }
    case Stop(id) => if id in s.dict.fwd { RequestedKeeps(s, Request(ForStop, s.dict.fwd[id])); }
    case Update(id, mode, started) => if id in s.dict.fwd { UpdateKeepsIff(s, id, mode, started); }
    case GetBatched(id) => if Step(s, e) != s { RequestedKeeps(s, Request(ForBatched, s.dict.fwd[id])); }
    case Respond(error) => RespondKeepsIff(s, error);
    case TripsCompleted(trips) => TripsKeepIff(s, trips);
  }

  // ---------------------------------------------------------------- all runs

  const Initial := Client(Dict(map[], map[], map[]), [], [])

  ghost function Run(es: seq<Event>): Client {
    if es == [] then Initial else Step(Run(es[..|es| - 1]), es[|es| - 1])
  }

  predicate Starts(e: Event) { e.Start? || e.Update? }

  /** LocationAPI never gives out a session twice. */
  ghost predicate NewSessions(es: seq<Event>) {
    && (forall i :: 0 <= i < |es| && Starts(es[i]) ==> es[i].started != 0)
    && (forall i, j :: 0 <= i < j < |es| && Starts(es[i]) && Starts(es[j]) ==> es[i].started != es[j].started)
  }

  ghost predicate StartedIn(es: seq<Event>, session: int) {
    exists i :: 0 <= i < |es| && Starts(es[i]) && es[i].started == session
  }

  lemma StepUses(s: Client, e: Event, session: int)
    requires ClientOk(s) && ClientOk(Step(s, e))
    requires session in Step(s, e).dict.bwd || session in Step(s, e).pending
    ensures session in s.dict.bwd || session in s.pending || (Starts(e) && e.started == session)
  {
    if e.Update? && e.id in s.dict.fwd {
      var was := s.dict.fwd[e.id];
      SwitchNames(s.dict.ext[was].sessionMode.MODE_ON_FIX?, e.mode, was, e.started);
    }
  }

  lemma StartedEarlier(es: seq<Event>, e: Event, session: int)
    requires StartedIn(es, session)
    ensures StartedIn(es + [e], session)
  {
    var i :| 0 <= i < |es| && Starts(es[i]) && es[i].started == session;
    assert (es + [e])[i] == es[i];
  }

  /** An event of the run leaves a request behind. */
  ghost predicate LeavesBehindAt(es: seq<Event>, i: nat)
    requires i < |es|
  {
    SessionsOk(Run(es[..i]).dict) && LeavesBehind(Run(es[..i]), es[i])
  }

  lemma PrefixEvent(es: seq<Event>, e: Event, i: nat)
    requires i < |es|
    ensures LeavesBehindAt(es + [e], i) == LeavesBehindAt(es, i)
  {
    assert (es + [e])[..i] == es[..i];
  }

  lemma LastEvent(es: seq<Event>, e: Event)
    requires SessionsOk(Run(es).dict)
    ensures LeavesBehindAt(es + [e], |es|) == LeavesBehind(Run(es), e)
  {
    assert (es + [e])[..|es|] == es;
  }

  ghost predicate Used(s: Client, session: int) { session in s.dict.bwd || session in s.pending }

  lemma FreshInRun(es: seq<Event>, e: Event)
    requires NewSessions(es + [e]) && forall x :: Used(Run(es), x) ==> StartedIn(es, x)
    requires SessionsOk(Run(es).dict)
    ensures Fresh(Run(es), e)
  {
    var all := es + [e];
    assert all[|es|] == e;
    forall i | 0 <= i < |es| && Starts(es[i]) ensures Starts(e) ==> es[i].started != e.started {
      assert all[i] == es[i];
    }
    assert Starts(e) ==> !StartedIn(es, e.started);
  }

  /**
  Over all runs with new sessions: the dictionary is sound, and queue and calls are in order exactly
  if no event took a session from the dictionary while another of its calls was unanswered.
  */
  lemma {:induction false} InOrderIff(es: seq<Event>)
    requires NewSessions(es)
    ensures ClientOk(Run(es)) && forall x :: Used(Run(es), x) ==> StartedIn(es, x)
    ensures InOrder(Run(es)) <==> forall i :: 0 <= i < |es| ==> !LeavesBehindAt(es, i)
  {
    if es != [] {
      var es0, e := es[..|es| - 1], es[|es| - 1];
      assert es == es0 + [e];
      InOrderIff(es0);
      FreshInRun(es0, e);
      StepKeepsIff(Run(es0), e);
      UsedInRun(es0, e);
      LastEvent(es0, e);
      forall i: nat | i < |es0| { PrefixEvent(es0, e, i); }
    }
  }

  lemma {:induction false} UsedInRun(es: seq<Event>, e: Event)
    requires ClientOk(Run(es)) && forall x :: Used(Run(es), x) ==> StartedIn(es, x)
    requires ClientOk(Step(Run(es), e))
    ensures forall x :: Used(Step(Run(es), e), x) ==> StartedIn(es + [e], x)
  {
    var all := es + [e];
    assert all[|es|] == e;
    forall x | Used(Step(Run(es), e), x) ensures StartedIn(all, x) {
      StepUses(Run(es), e, x);
      if Used(Run(es), x) { StartedEarlier(es, e, x); }
    }
  }

  // ---------------------------------------------------------------- what an answer does

  /**
  In order, an answer goes to the request of its own call, and takes its session from the dictionary
  exactly if that call was the start by locAPIStartSession and failed, or a stop and succeeded. A
  session that an update started stays bound even if its start failed.
  */
  lemma AnswerRemovesIff(s: Client, error: bool)
    requires ClientOk(s) && InOrder(s) && s.pending != [] && s.pending[0] in s.dict.bwd
    ensures s.queue != [] && s.queue[0].session == s.pending[0]
    ensures s.pending[0] !in Step(s, Respond(error)).dict.bwd <==>
      (s.queue[0].kind.ForStart? && error) || (s.queue[0].kind.ForStop? && !error)
  {
    assert SessionsOf(s.queue)[0] == Known(s.pending, s.dict.bwd.Keys)[0] == s.pending[0];
  }

  lemma RunStep(es: seq<Event>, k: nat)
    requires k < |es|
    ensures Run(es[..k + 1]) == Step(Run(es[..k]), es[k])
  {
    assert es[..k + 1][..k] == es[..k];
  }

  /** A start that fails, of a session that was stopped meanwhile, leaves the stop's request behind. */
  lemma StopLeftBehind(s: Client, p: int, stop: Request)
    requires SessionsOk(s.dict) && p in s.dict.bwd && s.pending == [p, p]
    requires s.queue == [Request(ForStart, p), stop]
    ensures var s' := Step(Step(s, Respond(true)), Respond(true));
      s' == Client(WithoutSession(s.dict, p), [stop], [])
  {
    RemoveKeepsOk(s.dict, p);
    var s1 := Step(s, Respond(true));
    assert s1 == Client(WithoutSession(s.dict, p), [stop], [p]);
  }

  /** The next session, started well, is then taken out by that request. */
  lemma NextSessionLost(s: Client, id: int, mode: SessionMode, started: int, p: int)
    requires SessionsOk(s.dict) && id !in s.dict.fwd && s.queue == [Request(ForStop, p)] && s.pending == []
    requires Fresh(s, Start(id, mode, started))
    ensures id !in Step(Step(s, Start(id, mode, started)), Respond(false)).dict.fwd
  {
    var entity := NewEntity(id, mode, started);
    var d := Bind(s.dict, id, started, entity);
    BindKeepsBijectionIff(s.dict, id, started, entity);
    var s1 := Step(s, Start(id, mode, started));
    assert s1 == Client(d, [Request(ForStop, p), Request(ForStart, started)], [started]);
    assert d.bwd[started] == id;
  }

  lemma {:induction false} SessionLost(p: int, started: int)
    requires p != 0 && started != 0 && started != p
    ensures var es := [Start(1, MODE_ON_FULL, p), Stop(1), Respond(true), Respond(true),
                       Start(2, MODE_ON_FULL, started), Respond(false)];
      2 !in Run(es).dict.fwd
  {
    var es := [Start(1, MODE_ON_FULL, p), Stop(1), Respond(true), Respond(true),
               Start(2, MODE_ON_FULL, started), Respond(false)];
    OneStarted(1, MODE_ON_FULL, p);
    var s1 := Step(Initial, es[0]);
    var s2 := Step(s1, es[1]);
    StopLeftBehind(s2, p, Request(ForStop, p));
    var s4 := Step(Step(s2, es[2]), es[3]);
    RemoveKeepsOk(s2.dict, p);
    NextSessionLost(s4, 2, MODE_ON_FULL, started, p);
    SixEvents(es);
  }

  lemma OneStarted(id: int, mode: SessionMode, p: int)
    requires p != 0
    ensures var s := Step(Initial, Start(id, mode, p));
      && SessionsOk(s.dict) && s.dict.fwd == map[id := p] && s.dict.bwd == map[p := id]
      && s.dict.ext == map[p := NewEntity(id, mode, p)]
      && s.queue == [Request(ForStart, p)] && s.pending == [p]
  {
    BindKeepsBijectionIff(Initial.dict, id, p, NewEntity(id, mode, p));
  }

  lemma SixEvents(es: seq<Event>)
    requires |es| == 6
    ensures Run(es) == Step(Step(Step(Step(Step(Step(Initial, es[0]), es[1]), es[2]), es[3]), es[4]), es[5])
  {
    RunStep(es, 0);
    RunStep(es, 1);
    RunStep(es, 2);
    RunStep(es, 3);
    RunStep(es, 4);
    RunStep(es, 5);
    assert es[..6] == es && Run(es[..0]) == Initial;
  }

  /**
  In order: when the session that an update started fails, it stays bound, since the answer goes to
  the request of the update.
  */
  lemma FailedUpdateStays(s: Client, id: int, mode: SessionMode, started: int)
    requires ClientOk(s) && s.queue == [] && s.pending == [] && id in s.dict.fwd
    requires Fresh(s, Update(id, mode, started)) && ChangesKind(s, id, mode)
    ensures var s' := Step(Step(Step(s, Update(id, mode, started)), Respond(false)), Respond(true));
      id in s'.dict.fwd && s'.dict.fwd[id] == started && InOrder(s') && s'.queue == [] && s'.pending == []
  {
    var was := s.dict.fwd[id];
    UpdateKeepsOk(s.dict, id, mode, started);
    KindChanged(s, id, mode, started);
    var s1 := Step(s, Update(id, mode, started));
    assert s1.queue == [Request(ForUpdate, started)] && s1.pending == [was, started];
    var s2 := Step(s1, Respond(false));
    assert was !in s1.dict.bwd && s2 == s1.(pending := [started]);
  }
}
