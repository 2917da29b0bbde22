/** The wrapping source of session ids, LocAdapterBase::generateSessionId. */
module SessionIds {

  const UINT32: nat := 0x1_0000_0000
  const PERIOD: nat := 0xFFFF_FFFE

  /** ++mSessionIdCounter on 32 bits, skipping 0xFFFFFFFF. */
  function NextId(counter: nat): nat {
    var c := (counter + 1) % UINT32;
    if c == 0xFFFF_FFFF then 1 else c
  }

  /** The counter after n calls. */
  function IdAfter(n: nat): nat { if n == 0 then 1 else NextId(IdAfter(n - 1)) }

  class LocAdapterBase {
    var mSessionIdCounter: nat
    ghost var callCount: nat

    ghost predicate Valid()
      reads this
    {
      mSessionIdCounter == IdAfter(callCount)
    }

    constructor ()
      ensures Valid() && callCount == 0
    {
      mSessionIdCounter, callCount := 1, 0;
    }

    method GenerateSessionId() returns (id: nat)
      requires Valid()
      modifies this
      ensures Valid() && callCount == old(callCount) + 1 && id == IdAfter(callCount)
    {
      mSessionIdCounter := (mSessionIdCounter + 1) % UINT32;
      if mSessionIdCounter == 0xFFFF_FFFF {
        mSessionIdCounter := 1;
      }
      callCount := callCount + 1;
      return mSessionIdCounter;
    }
  }

  lemma {:induction false} IdClosedForm(n: nat)
    ensures IdAfter(n) == 1 + n % PERIOD
  {
    if n > 0 {
      IdClosedForm(n - 1);
      NextResidue(n - 1);
    }
  }

  lemma NextResidue(n: nat)
    ensures (n + 1) % PERIOD == if n % PERIOD == PERIOD - 1 then 0 else n % PERIOD + 1
  {
    var q, r, q' := n / PERIOD, n % PERIOD, (n + 1) / PERIOD;
    assert n == PERIOD * q + r && n + 1 == PERIOD * q' + (n + 1) % PERIOD;
    assert PERIOD * (q' - q) == r + 1 - (n + 1) % PERIOD;
    assert 0 <= q' - q <= 1;
  }

  lemma SameResidue(i: nat, j: nat)
    requires i <= j
    ensures i % PERIOD == j % PERIOD <==> (j - i) % PERIOD == 0
  {
    var qi, qj, qd := i / PERIOD, j / PERIOD, (j - i) / PERIOD;
    assert i == PERIOD * qi + i % PERIOD && j == PERIOD * qj + j % PERIOD;
    assert j - i == PERIOD * qd + (j - i) % PERIOD;
    assert j % PERIOD - i % PERIOD - (j - i) % PERIOD == PERIOD * (qd + qi - qj);
    assert -2 < qd + qi - qj < 2;
  }

  /** No id is 0 or 0xFFFFFFFF, and two calls yield the same id exactly a multiple of 2^32 - 2 apart. */
  lemma IdsRepeatOnlyAfterFullPeriod(i: nat, j: nat)
    requires i <= j
    ensures 0 < IdAfter(i) < 0xFFFF_FFFF
    ensures IdAfter(i) == IdAfter(j) <==> (j - i) % 0xFFFF_FFFE == 0
  {
    IdClosedForm(i);
    IdClosedForm(j);
    SameResidue(i, j);
  }
}
