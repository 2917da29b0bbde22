/** BiDict: ids to sessions, sessions back to ids, and an extra value for each session. */
module BiDict {

  datatype Dict<T> = Dict(fwd: map<int, int>, bwd: map<int, int>, ext: map<int, T>)

  /** The two maps are inverse to each other, and the same sessions have an extra value. */
  ghost predicate Bijective<T>(d: Dict<T>) {
    && (forall id :: id in d.fwd ==> d.fwd[id] in d.bwd && d.bwd[d.fwd[id]] == id)
    && (forall s :: s in d.bwd ==> d.bwd[s] in d.fwd && d.fwd[d.bwd[s]] == s)
    && d.ext.Keys == d.bwd.Keys
  }

  function Bind<T>(d: Dict<T>, id: int, session: int, x: T): Dict<T> {
    Dict(d.fwd[id := session], d.bwd[session := id], d.ext[session := x])
  }

  ghost function WithoutSession<T>(d: Dict<T>, session: int): Dict<T>
    requires session in d.bwd
  {
    Dict(d.fwd - {d.bwd[session]}, d.bwd - {session}, d.ext - {session})
  }

  /** The part of a dictionary with some of its ids. */
  ghost function Part<T>(d: Dict<T>, ids: set<int>): Dict<T> {
    Dict(map id | id in d.fwd && id in ids :: d.fwd[id],
         map s | s in d.bwd && d.bwd[s] in ids :: d.bwd[s],
         map s | s in d.ext && s in d.bwd && d.bwd[s] in ids :: d.ext[s])
  }

  /** set keeps the dictionary a bijection exactly if neither the id nor the session is bound elsewhere. */
  lemma BindKeepsBijectionIff<T>(d: Dict<T>, id: int, session: int, x: T)
    requires Bijective(d)
    ensures Bijective(Bind(d, id, session, x)) <==>
      (id in d.fwd ==> d.fwd[id] == session) && (session in d.bwd ==> d.bwd[session] == id)
  {
    var d' := Bind(d, id, session, x);
    if id in d.fwd && d.fwd[id] != session {
      assert d.fwd[id] in d'.bwd;
    }
    if session in d.bwd && d.bwd[session] != id {
      assert d.bwd[session] in d'.fwd;
    }
  }

  ghost function Ids(s: seq<int>): set<int> { set i | i in s }

  lemma IdsSnoc(ids: set<int>, s: seq<int>, x: int)
    ensures Ids(s + [x]) == Ids(s) + {x}
    ensures ids - Ids(s + [x]) == (ids - Ids(s)) - {x}
  {
  }

  lemma SameMap<V>(m: map<int, V>, m': map<int, V>)
    requires forall k :: k in m <==> k in m'
    requires forall k :: k in m ==> m[k] == m'[k]
    ensures m == m'
  {
    forall k: int ensures k in m.Keys <==> k in m'.Keys {}
    forall k: int | k in m.Keys ensures m[k] == m'[k] {}
  }

  lemma SameDict<T>(d: Dict<T>, d': Dict<T>)
    requires forall id :: id in d.fwd <==> id in d'.fwd
    requires forall id :: id in d.fwd ==> d.fwd[id] == d'.fwd[id]
    requires forall s :: s in d.bwd <==> s in d'.bwd
    requires forall s :: s in d.bwd ==> d.bwd[s] == d'.bwd[s]
    requires forall s :: s in d.ext <==> s in d'.ext
    requires forall s :: s in d.ext ==> d.ext[s] == d'.ext[s]
    ensures d == d'
  {
    SameMap(d.fwd, d'.fwd);
    SameMap(d.bwd, d'.bwd);
    SameMap(d.ext, d'.ext);
  }

  lemma PartOfAll<T>(d: Dict<T>)
    requires Bijective(d)
    ensures Part(d, d.fwd.Keys) == d && Part(d, {}) == Dict(map[], map[], map[])
  {
    SameDict(Part(d, d.fwd.Keys), d);
    SameDict(Part(d, {}), Dict(map[], map[], map[]));
  }

  /** Taking a session out of a part leaves the part without its id. */
  lemma TakeFromPart<T>(d: Dict<T>, from: set<int>, session: int)
    requires Bijective(d) && session in d.bwd && d.bwd[session] in from
    ensures session in Part(d, from).bwd
    ensures WithoutSession(Part(d, from), session) == Part(d, from - {d.bwd[session]})
  {
    SameDict(WithoutSession(Part(d, from), session), Part(d, from - {d.bwd[session]}));
  }

  class BiDict<T(==)> {
    var mForwardMap: map<int, int>
    var mBackwardMap: map<int, int>
    var mExtMap: map<int, T>

    ghost function Value(): Dict<T>
      reads this
    {
      Dict(mForwardMap, mBackwardMap, mExtMap)
    }

    constructor ()
      ensures Value() == Dict(map[], map[], map[])
    {
      mForwardMap, mBackwardMap, mExtMap := map[], map[], map[];
    }

    predicate HasId(id: int)
      reads this
    {
      id in mForwardMap
    }

    predicate HasSession(session: int)
      reads this
    {
      session in mBackwardMap
    }

    method Set(id: int, session: int, x: T)
      modifies this
      ensures Value() == Bind(old(Value()), id, session, x)
    {
      mForwardMap := mForwardMap[id := session];
      mBackwardMap := mBackwardMap[session := id];
      mExtMap := mExtMap[session := x];
    }

    /** Looking up an id that is not there first binds it to session 0. */
    method RmById(id: int)
      modifies this
      ensures Bijective(old(Value())) && id in old(mForwardMap) ==>
        Value() == WithoutSession(old(Value()), old(mForwardMap)[id])
      ensures id !in old(mForwardMap) ==>
        Value() == Dict(old(mForwardMap), old(mBackwardMap) - {0}, old(mExtMap) - {0})
    {
      var session := if id in mForwardMap then mForwardMap[id] else 0;
      mBackwardMap := mBackwardMap - {session};
      mExtMap := mExtMap - {session};
      mForwardMap := mForwardMap - {id};
    }

    method RmBySession(session: int)
      modifies this
      ensures session in old(mBackwardMap) ==> Value() == WithoutSession(old(Value()), session)
      ensures session !in old(mBackwardMap) ==>
        Value() == Dict(old(mForwardMap) - {0}, old(mBackwardMap), old(mExtMap) - {session})
    {
      var id := if session in mBackwardMap then mBackwardMap[session] else 0;
      mForwardMap := mForwardMap - {id};
      mBackwardMap := mBackwardMap - {session};
      mExtMap := mExtMap - {session};
    }

    function GetSession(id: int): int
      reads this
    {
      if id in mForwardMap then mForwardMap[id] else 0
    }
  }
}
