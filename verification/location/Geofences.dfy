/** What adding and removing geofences does to their dictionary. */
module Geofences {
  import opened BiDict

  ghost predicate GeofencesOk(d: Dict<int>) {
    Bijective(d) && forall s :: s in d.bwd ==> s > 0
  }

  /** What is left of that when ids are added twice: every id is linked to a session of its own. */
  ghost predicate Linked(d: Dict<int>) {
    && (forall id :: id in d.fwd ==> d.fwd[id] in d.bwd && d.bwd[d.fwd[id]] == id)
    && d.ext.Keys == d.bwd.Keys
    && forall s :: s in d.bwd ==> s > 0
  }

  /** A session that runs although no id leads to it. */
  ghost predicate Leaked(d: Dict<int>, s: int) {
    s in d.bwd && (d.bwd[s] in d.fwd ==> d.fwd[d.bwd[s]] != s)
  }

  lemma OkIffNoneLeaked(d: Dict<int>)
    ensures GeofencesOk(d) <==> Linked(d) && forall s :: !Leaked(d, s)
  {
    if Linked(d) && forall s :: !Leaked(d, s) {
      forall s | s in d.bwd ensures d.bwd[s] in d.fwd && d.fwd[d.bwd[s]] == s {
        assert !Leaked(d, s);
      }
    }
  }

  // ---------------------------------------------------------------- adding

  ghost function BindAll(d: Dict<int>, ids: seq<int>, ss: seq<int>, xs: seq<int>): Dict<int>
    requires |ids| == |ss| == |xs|
  {
    if ids == [] then d
    else
      var n := |ids| - 1;
      Bind(BindAll(d, ids[..n], ss[..n], xs[..n]), ids[n], ss[n], xs[n])
  }

  lemma BindAllStep(d: Dict<int>, ids: seq<int>, ss: seq<int>, xs: seq<int>, i: nat)
    requires |ids| == |ss| == |xs| && i < |ids|
    ensures BindAll(d, ids[..i + 1], ss[..i + 1], xs[..i + 1]) ==
      Bind(BindAll(d, ids[..i], ss[..i], xs[..i]), ids[i], ss[i], xs[i])
  {
    assert ids[..i + 1][..i] == ids[..i] && ss[..i + 1][..i] == ss[..i] && xs[..i + 1][..i] == xs[..i];
  }

  /** Position i is the last that holds its value. */
  ghost predicate LastAt(xs: seq<int>, i: nat) {
    i < |xs| && forall j :: i < j < |xs| ==> xs[j] != xs[i]
  }

  lemma {:induction false} LastOf(xs: seq<int>, x: int) returns (i: nat)
    requires x in xs
    ensures LastAt(xs, i) && xs[i] == x
  {
    var n := |xs| - 1;
    if xs[n] == x {
      i := n;
    } else {
      i := LastOf(xs[..n], x);
    }
  }

  /** The map after the pairs were written to it in order: the last pair of a key wins. */
  ghost predicate LastWins(m: map<int, int>, m': map<int, int>, keys: seq<int>, values: seq<int>)
    requires |keys| == |values|
  {
    && m'.Keys == m.Keys + Ids(keys)
    && (forall i: nat :: LastAt(keys, i) ==> keys[i] in m' && m'[keys[i]] == values[i])
    && (forall k :: k in m && k !in keys ==> m'[k] == m[k])
  }

  lemma LastWinsStep(m: map<int, int>, m1: map<int, int>, keys: seq<int>, values: seq<int>)
    requires |keys| == |values| && keys != []
    requires LastWins(m, m1, keys[..|keys| - 1], values[..|keys| - 1])
    ensures LastWins(m, m1[keys[|keys| - 1] := values[|keys| - 1]], keys, values)
  {
    var n := |keys| - 1;
    IdsSnoc({}, keys[..n], keys[n]);
    assert keys == keys[..n] + [keys[n]];
    forall i: nat | LastAt(keys, i) && i < n ensures LastAt(keys[..n], i) && keys[i] != keys[n] {}
  }

  /** The dictionary after the loop: the last pair of an id, the last pair of a session, and its last mask, win. */
  ghost predicate BoundAs(d: Dict<int>, d': Dict<int>, ids: seq<int>, ss: seq<int>, xs: seq<int>)
    requires |ids| == |ss| == |xs|
  {
    LastWins(d.fwd, d'.fwd, ids, ss) && LastWins(d.bwd, d'.bwd, ss, ids) && LastWins(d.ext, d'.ext, ss, xs)
  }

  lemma {:induction false} BindAllBinds(d: Dict<int>, ids: seq<int>, ss: seq<int>, xs: seq<int>)
    requires |ids| == |ss| == |xs|
    ensures BoundAs(d, BindAll(d, ids, ss, xs), ids, ss, xs)
  {
    if ids != [] {
      var n := |ids| - 1;
      BindAllBinds(d, ids[..n], ss[..n], xs[..n]);
      var d1 := BindAll(d, ids[..n], ss[..n], xs[..n]);
      LastWinsStep(d.fwd, d1.fwd, ids, ss);
      LastWinsStep(d.bwd, d1.bwd, ss, ids);
      LastWinsStep(d.ext, d1.ext, ss, xs);
    }
  }

  /**
  The pairs respect each other and the dictionary: a pair is the last of its id exactly if it is
  the last of its session, and an id is bound anew exactly if its session is.
  */
  ghost predicate Compatible(d: Dict<int>, ids: seq<int>, ss: seq<int>)
    requires |ids| == |ss|
  {
    && (forall i :: 0 <= i < |ids| ==> (LastAt(ids, i) <==> LastAt(ss, i)))
    && (forall id :: id in d.fwd ==> (id in ids <==> d.fwd[id] in ss))
    && (forall i :: 0 <= i < |ss| ==> ss[i] > 0)
  }

  /** Adding geofences keeps the dictionary a bijection exactly if the pairs are compatible with it. */
  lemma AddKeepsOkIff(d: Dict<int>, ids: seq<int>, ss: seq<int>, xs: seq<int>)
    requires GeofencesOk(d) && |ids| == |ss| == |xs|
    ensures GeofencesOk(BindAll(d, ids, ss, xs)) <==> Compatible(d, ids, ss)
  {
    var d' := BindAll(d, ids, ss, xs);
    BindAllBinds(d, ids, ss, xs);
    if Compatible(d, ids, ss) {
      CompatibleIsOk(d, d', ids, ss, xs);
    }
    if GeofencesOk(d') {
      OkIsCompatible(d, d', ids, ss, xs);
    }
  }

  lemma CompatibleIsOk(d: Dict<int>, d': Dict<int>, ids: seq<int>, ss: seq<int>, xs: seq<int>)
    requires GeofencesOk(d) && |ids| == |ss| == |xs| && BoundAs(d, d', ids, ss, xs) && Compatible(d, ids, ss)
    ensures GeofencesOk(d')
  {
    forall id | id in d'.fwd ensures d'.fwd[id] in d'.bwd && d'.bwd[d'.fwd[id]] == id {
      if id in ids {
        var i := LastOf(ids, id);
        assert ss[i] in ss && LastAt(ss, i);
      } else {
        assert d.fwd[id] !in ss;
      }
    }
    forall s | s in d'.bwd ensures d'.bwd[s] in d'.fwd && d'.fwd[d'.bwd[s]] == s && s > 0 {
      if s in ss {
        var i := LastOf(ss, s);
        assert ids[i] in ids && LastAt(ids, i);
      } else {
        assert d.bwd[s] in d.fwd && d.bwd[s] !in ids;
      }
    }
  }

  lemma OkIsCompatible(d: Dict<int>, d': Dict<int>, ids: seq<int>, ss: seq<int>, xs: seq<int>)
    requires GeofencesOk(d) && |ids| == |ss| == |xs| && BoundAs(d, d', ids, ss, xs) && GeofencesOk(d')
    ensures Compatible(d, ids, ss)
  {
    forall i: nat | LastAt(ids, i) ensures LastAt(ss, i) {
      var k := LastOf(ss, ss[i]);
      assert ids[i] in ids && d'.bwd[ss[k]] == ids[k] && d'.fwd[ids[i]] == ss[i];
      assert ids[k] == ids[i];
    }
    forall i: nat | LastAt(ss, i) ensures LastAt(ids, i) {
      var k := LastOf(ids, ids[i]);
      assert ss[i] in ss && d'.fwd[ids[k]] == ss[k] && d'.bwd[ss[i]] == ids[i];
      assert ss[k] == ss[i];
    }
    forall id | id in d.fwd ensures id in ids <==> d.fwd[id] in ss {
      OldPairStays(d, d', ids, ss, xs, id);
    }
    forall i | 0 <= i < |ss| ensures ss[i] > 0 { assert ss[i] in d'.bwd; }
  }

  lemma OldPairStays(d: Dict<int>, d': Dict<int>, ids: seq<int>, ss: seq<int>, xs: seq<int>, id: int)
    requires GeofencesOk(d) && |ids| == |ss| == |xs| && BoundAs(d, d', ids, ss, xs) && GeofencesOk(d') && id in d.fwd
    ensures id in ids <==> d.fwd[id] in ss
  {
    var s := d.fwd[id];
    assert id in ids || d'.fwd[id] == s;
    assert s in ss || d'.bwd[s] == id;
    if s in ss {
      var k := LastOf(ss, s);
      assert d'.bwd[s] == ids[k] && ids[k] in ids;
    }
    if id in ids {
      var k := LastOf(ids, id);
      assert d'.fwd[id] == ss[k] && ss[k] in ss;
    }
  }

  /** What LocationAPI returns for new geofences: positive session ids, all of them new. */
  ghost predicate FreshSessions(d: Dict<int>, ss: seq<int>) {
    forall i :: 0 <= i < |ss| ==> ss[i] > 0 && ss[i] !in d.bwd && forall j :: 0 <= j < i ==> ss[j] != ss[i]
  }

  /** With new sessions the condition is the caller's: no id twice, and none that is known. */
  lemma AddFreshKeepsOkIff(d: Dict<int>, ids: seq<int>, ss: seq<int>, xs: seq<int>)
    requires GeofencesOk(d) && |ids| == |ss| == |xs| && FreshSessions(d, ss)
    ensures GeofencesOk(BindAll(d, ids, ss, xs)) <==>
      (forall i, j :: 0 <= i < j < |ids| ==> ids[i] != ids[j]) && forall i :: 0 <= i < |ids| ==> ids[i] !in d.fwd
  {
    AddKeepsOkIff(d, ids, ss, xs);
    forall i | 0 <= i < |ss| ensures LastAt(ss, i) {}
    if Compatible(d, ids, ss) {
      forall i, j | 0 <= i < j < |ids| ensures ids[i] != ids[j] {
        assert LastAt(ss, i) && LastAt(ids, i);
      }
      forall id | id in d.fwd ensures id !in ids {
        assert d.fwd[id] in d.bwd && d.fwd[id] !in ss;
      }
    }
  }

  /** Adding never unlinks an id, whatever ids are given. */
  lemma {:induction false} AddKeepsLinked(d: Dict<int>, ids: seq<int>, ss: seq<int>, xs: seq<int>)
    requires Linked(d) && |ids| == |ss| == |xs| && FreshSessions(d, ss)
    ensures Linked(BindAll(d, ids, ss, xs)) && BindAll(d, ids, ss, xs).bwd.Keys == d.bwd.Keys + Ids(ss)
  {
    if ids != [] {
      var n := |ids| - 1;
      AddKeepsLinked(d, ids[..n], ss[..n], xs[..n]);
      assert ss == ss[..n] + [ss[n]];
      IdsSnoc({}, ss[..n], ss[n]);
      assert ss[n] !in ss[..n];
    }
  }

  /** An id that is added twice loses its first session. */
  lemma AddedTwiceLeaks(id: int, s: int, s': int, x: int)
    requires s > 0 && s' > 0 && s != s'
    ensures var d := BindAll(Dict(map[], map[], map[]), [id, id], [s, s'], [x, x]);
      Linked(d) && Leaked(d, s) && !GeofencesOk(d)
  {
    var none: Dict<int> := Dict(map[], map[], map[]);
    assert [id, id][..1] == [id] && [s, s'][..1] == [s] && [x, x][..1] == [x];
    assert BindAll(none, [id], [s], [x]) == Bind(BindAll(none, [], [], []), id, s, x) == Bind(none, id, s, x);
    assert BindAll(none, [id, id], [s, s'], [x, x]) == Bind(Bind(none, id, s, x), id, s', x);
  }

  // ---------------------------------------------------------------- removing

  ghost function SessionsOf(d: Dict<int>, ids: set<int>): set<int> {
    set id | id in ids && id in d.fwd :: d.fwd[id]
  }

  /** The dictionary without some ids and their sessions. */
  ghost function LeftOf(d: Dict<int>, ids: set<int>): Dict<int> {
    Dict(d.fwd - ids, d.bwd - SessionsOf(d, ids), d.ext - SessionsOf(d, ids))
  }

  /** The part of it with just these ids. */
  ghost function GoneOf(d: Dict<int>, ids: set<int>): Dict<int> {
    Dict(map id | id in d.fwd && id in ids :: d.fwd[id],
         map s | s in d.bwd && s in SessionsOf(d, ids) :: d.bwd[s],
         map s | s in d.ext && s in SessionsOf(d, ids) :: d.ext[s])
  }

  /** A part of the dictionary, with the same ids, sessions and masks. */
  ghost predicate PartOf(r: Dict<int>, d: Dict<int>) {
    && (forall id :: id in r.fwd ==> id in d.fwd && r.fwd[id] == d.fwd[id])
    && (forall s :: s in r.bwd ==> s in d.bwd && r.bwd[s] == d.bwd[s])
    && (forall s :: s in r.ext ==> s in d.ext && r.ext[s] == d.ext[s])
  }

  /** Nothing of the dictionary is lost or changed: each id and session, with its mask, is on one side. */
  lemma LeftAndGone(d: Dict<int>, ids: set<int>)
    requires Linked(d)
    ensures var left, gone := LeftOf(d, ids), GoneOf(d, ids);
      && PartOf(left, d) && PartOf(gone, d)
      && gone.fwd.Keys == d.fwd.Keys * ids && left.fwd.Keys == d.fwd.Keys - ids
      && left.bwd.Keys !! gone.bwd.Keys && left.bwd.Keys + gone.bwd.Keys == d.bwd.Keys
      && left.ext.Keys == left.bwd.Keys && gone.ext.Keys == gone.bwd.Keys
      && (forall id :: id in gone.fwd ==> gone.fwd[id] in gone.bwd)
  {
    forall id | id in ids && id in d.fwd { SessionOf(d, ids, id); }
  }

  lemma LeftKeepsBijection(d: Dict<int>, ids: set<int>)
    requires Linked(d)
    ensures Linked(LeftOf(d, ids)) && (GeofencesOk(d) ==> GeofencesOk(LeftOf(d, ids)))
  {
    var left := LeftOf(d, ids);
    forall id | id in left.fwd ensures left.fwd[id] in left.bwd {
      assert d.bwd[d.fwd[id]] == id;
    }
    forall id | id in ids && id in d.fwd { SessionOf(d, ids, id); }
    if GeofencesOk(d) {
      forall s | s in left.bwd ensures left.bwd[s] in left.fwd {
        assert d.fwd[d.bwd[s]] == s;
      }
    }
  }

  lemma SessionOf(d: Dict<int>, ids: set<int>, id: int)
    requires id in ids && id in d.fwd
    ensures d.fwd[id] in SessionsOf(d, ids)
  {
  }

  /** A session that has leaked is never removed. */
  lemma LeakedStays(d: Dict<int>, ids: set<int>, s: int)
    requires Linked(d) && Leaked(d, s)
    ensures Leaked(LeftOf(d, ids), s)
  {
  }

  datatype Transfer = Transfer(left: Dict<int>, gone: Dict<int>, known: seq<int>)

  /** The id moves with its session to the dictionary gone, if it is known. */
  ghost function TransferOne(t: Transfer, id: int): (r: Transfer)
    requires Linked(t.left)
    ensures Linked(r.left)
  {
    if id in t.left.fwd
    then
      var s := t.left.fwd[id];
      Transfer(WithoutSession(t.left, s), Bind(t.gone, id, s, t.left.ext[s]), t.known + [s])
    else t
  }

  ghost function TransferAll(t: Transfer, ids: seq<int>): (r: Transfer)
    requires Linked(t.left)
    ensures Linked(r.left)
  {
    if ids == [] then t else TransferOne(TransferAll(t, ids[..|ids| - 1]), ids[|ids| - 1])
  }

  lemma KnownGrow(left: Dict<int>, gone: Dict<int>, known: seq<int>, id: int)
    requires Linked(left)
    ensures var t, t0 := TransferOne(Transfer(left, gone, known), id), TransferOne(Transfer(left, gone, []), id);
      t == Transfer(t0.left, t0.gone, known + t0.known)
  {
  }

  /** The sessions of the known ids, in order, each at the first mention of its id. */
  ghost function KnownSessions(fwd: map<int, int>, ids: seq<int>): seq<int> {
    if ids == [] then []
    else
      var n := |ids| - 1;
      KnownSessions(fwd, ids[..n]) + if ids[n] in fwd && ids[n] !in ids[..n] then [fwd[ids[n]]] else []
  }

  /** The array has just the sessions of the known ids. */
  lemma {:induction false} KnownAre(fwd: map<int, int>, ids: seq<int>, s: int)
    ensures s in KnownSessions(fwd, ids) <==> exists i :: 0 <= i < |ids| && ids[i] in fwd && fwd[ids[i]] == s
  {
    if ids != [] {
      var n := |ids| - 1;
      KnownAre(fwd, ids[..n], s);
      if ids[n] in ids[..n] {
        var i :| 0 <= i < n && ids[..n][i] == ids[n];
      }
      if i :| 0 <= i < |ids| && ids[i] in fwd && fwd[ids[i]] == s && i < n {
        assert ids[..n][i] == ids[i];
      }
    }
  }

  /** The ids that come first in the list come first in the array. */
  lemma {:induction false} KnownInOrder(fwd: map<int, int>, ids: seq<int>, k: nat)
    requires k <= |ids|
    ensures KnownSessions(fwd, ids[..k]) <= KnownSessions(fwd, ids)
  {
    if k == |ids| {
      assert ids[..k] == ids;
    } else {
      KnownInOrder(fwd, ids[..|ids| - 1], k);
      assert ids[..|ids| - 1][..k] == ids[..k];
    }
  }

  /** Each once, if the dictionary is a bijection. */
  lemma {:induction false} KnownOnce(d: Dict<int>, ids: seq<int>, j: nat, k: nat)
    requires Linked(d) && j < k < |KnownSessions(d.fwd, ids)|
    ensures KnownSessions(d.fwd, ids)[j] != KnownSessions(d.fwd, ids)[k]
  {
    var n := |ids| - 1;
    var before := KnownSessions(d.fwd, ids[..n]);
    if k < |before| {
      KnownOnce(d, ids[..n], j, k);
    } else {
      KnownAre(d.fwd, ids[..n], before[j]);
      assert before[j] in before;
      var i :| 0 <= i < n && ids[..n][i] in d.fwd && d.fwd[ids[..n][i]] == before[j];
      var id := ids[..n][i];
      assert id in ids[..n] && ids[n] !in ids[..n];
      var last := ids[n];
      assert last in d.fwd;
      assert d.bwd[d.fwd[id]] == id && d.bwd[d.fwd[last]] == last;
    }
  }

  /** The known ids, and no others, end in the other dictionary, bound to the sessions they had. */
  lemma {:induction false} TransferAllMoves(d: Dict<int>, ids: seq<int>)
    requires Linked(d)
    ensures TransferAll(Transfer(d, Dict(map[], map[], map[]), []), ids) ==
      Transfer(LeftOf(d, Ids(ids)), GoneOf(d, Ids(ids)), KnownSessions(d.fwd, ids))
  {
    if ids == [] {
      SameDict(LeftOf(d, {}), d);
      SameDict(GoneOf(d, {}), Dict(map[], map[], map[]));
      assert Ids(ids) == {};
    } else {
      var before, id := ids[..|ids| - 1], ids[|ids| - 1];
      assert ids == before + [id];
      TransferAllMoves(d, before);
      IdsSnoc({}, before, id);
      if id in before {
        assert Ids(before) + {id} == Ids(before);
      } else if id !in d.fwd {
        UnknownMovesNothing(d, Ids(before), id);
      } else {
        OneMoreLeaves(d, Ids(before), id);
        OneMoreGoes(d, Ids(before), id);
      }
    }
  }

  lemma UnknownMovesNothing(d: Dict<int>, ids: set<int>, id: int)
    requires id !in d.fwd
    ensures LeftOf(d, ids + {id}) == LeftOf(d, ids) && GoneOf(d, ids + {id}) == GoneOf(d, ids)
  {
    assert SessionsOf(d, ids + {id}) == SessionsOf(d, ids);
    SameDict(LeftOf(d, ids + {id}), LeftOf(d, ids));
    SameDict(GoneOf(d, ids + {id}), GoneOf(d, ids));
  }

  lemma OneMoreSession(d: Dict<int>, ids: set<int>, id: int)
    requires Linked(d) && id in d.fwd && id !in ids
    ensures SessionsOf(d, ids + {id}) == SessionsOf(d, ids) + {d.fwd[id]} && d.fwd[id] !in SessionsOf(d, ids)
  {
  }

  lemma OneMoreLeaves(d: Dict<int>, ids: set<int>, id: int)
    requires Linked(d) && id in d.fwd && id !in ids
    ensures var s := d.fwd[id]; var left := LeftOf(d, ids);
      id in left.fwd && left.fwd[id] == s && s in left.bwd && LeftOf(d, ids + {id}) == WithoutSession(left, s)
  {
    OneMoreSession(d, ids, id);
    SameDict(LeftOf(d, ids + {id}), WithoutSession(LeftOf(d, ids), d.fwd[id]));
  }

  lemma OneMoreGoes(d: Dict<int>, ids: set<int>, id: int)
    requires Linked(d) && id in d.fwd && id !in ids
    ensures var s := d.fwd[id];
      s in LeftOf(d, ids).ext && GoneOf(d, ids + {id}) == Bind(GoneOf(d, ids), id, s, LeftOf(d, ids).ext[s])
  {
    OneMoreSession(d, ids, id);
    var s := d.fwd[id];
    SameDict(GoneOf(d, ids + {id}), Bind(GoneOf(d, ids), id, s, LeftOf(d, ids).ext[s]));
  }
}
